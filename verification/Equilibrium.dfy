// The bisection for the bus voltage of a set of arrester branches behind a
// resistive source.
module Equilibrium {
  import opened Division

  // The arrester curve as current against per-unit voltage; the log-log
  // interpolation behind it is a parameter of the model.
  type Curve = real -> real

  datatype Network = Network(source: real, ohm: real, scales: seq<real>, curve: Curve)

  // Inverting a curve whose current and voltage both increase gives a current
  // that is never negative and never falls as the voltage rises.
  ghost predicate Rising(curve: Curve) {
    (forall v: real :: v > 0.0 ==> curve(v) >= 0.0)
    && forall u: real, v: real :: 0.0 < u <= v ==> curve(u) <= curve(v)
  }

  ghost predicate Physical(net: Network) {
    net.source > 0.0 && net.ohm > 0.0 && Rising(net.curve)
    && forall i :: 0 <= i < |net.scales| ==> net.scales[i] > 0.0
  }

  predicate Branches(net: Network, active: seq<nat>) {
    forall i :: 0 <= i < |active| ==> active[i] < |net.scales|
  }

  // branch_current
  function BranchCurrent(curve: Curve, voltage: real, scale: real): real
    requires scale != 0.0
  {
    if voltage <= 0.0 then 0.0 else curve(voltage / scale)
  }

  // The current all active branches draw at bus voltage vb.
  ghost function Drawn(net: Network, active: seq<nat>, vb: real): real
    requires Physical(net) && Branches(net, active)
  {
    if active == [] then 0.0 else
      var n := |active| - 1;
      Drawn(net, active[..n], vb) + BranchCurrent(net.curve, vb, net.scales[active[n]])
  }

  ghost function Residual(net: Network, active: seq<nat>, vb: real): real
    requires Physical(net) && Branches(net, active)
  {
    (net.source - vb) / net.ohm - Drawn(net, active, vb)
  }

  lemma {:induction false} BranchRises(net: Network, i: nat, u: real, v: real)
    requires Physical(net) && i < |net.scales| && u <= v
    ensures 0.0 <= BranchCurrent(net.curve, u, net.scales[i]) <= BranchCurrent(net.curve, v, net.scales[i])
  {
    var s := net.scales[i];
    if u > 0.0 {
      DivideRises(0.0, u, s);
      DivideRises(u, v, s);
    } else if v > 0.0 {
      DivideRises(0.0, v, s);
    }
  }

  lemma {:induction false} DrawnRises(net: Network, active: seq<nat>, u: real, v: real)
    requires Physical(net) && Branches(net, active) && u <= v
    ensures 0.0 <= Drawn(net, active, u) <= Drawn(net, active, v)
    ensures u <= 0.0 ==> Drawn(net, active, u) == 0.0
  {
    if active != [] {
      var n := |active| - 1;
      DrawnRises(net, active[..n], u, v);
      BranchRises(net, active[n], u, v);
    }
  }

  // Residual falls strictly, so it changes sign at most once.
  lemma {:induction false} ResidualFalls(net: Network, active: seq<nat>, u: real, v: real)
    requires Physical(net) && Branches(net, active) && u < v
    ensures Residual(net, active, u) > Residual(net, active, v)
  {
    DrawnRises(net, active, u, v);
    DivideRises(net.source - v, net.source - u, net.ohm);
  }

  // v is where the residual changes sign: positive below, not positive above.
  ghost predicate SignChange(net: Network, active: seq<nat>, v: real)
    requires Physical(net) && Branches(net, active)
  {
    (forall u: real :: u < v ==> Residual(net, active, u) > 0.0)
    && forall u: real :: u > v ==> Residual(net, active, u) <= 0.0
  }

  lemma {:induction false} RootIsSignChange(net: Network, active: seq<nat>, v: real)
    requires Physical(net) && Branches(net, active) && Residual(net, active, v) == 0.0
    ensures SignChange(net, active, v)
  {
    forall u: real | u < v ensures Residual(net, active, u) > 0.0 { ResidualFalls(net, active, u, v); }
    forall u: real | u > v ensures Residual(net, active, u) <= 0.0 { ResidualFalls(net, active, v, u); }
  }

  lemma {:induction false} SignChangeIsUnique(net: Network, active: seq<nat>, u: real, v: real)
    requires Physical(net) && Branches(net, active)
    requires SignChange(net, active, u) && SignChange(net, active, v)
    ensures u == v
  {
    var between := Residual(net, active, (u + v) / 2.0);
  }

  // ---- the bisection ----

  function Pow2(k: nat): (r: real)
    ensures r >= 1.0
  {
    if k == 0 then 1.0 else 2.0 * Pow2(k - 1)
  }

  // The bracket after k more halvings.
  ghost function Bisect(net: Network, active: seq<nat>, lo: real, hi: real, k: nat): (real, real)
    requires Physical(net) && Branches(net, active)
    decreases k
  {
    if k == 0 then (lo, hi) else
      var mid := (lo + hi) / 2.0;
      if Residual(net, active, mid) > 0.0 then Bisect(net, active, mid, hi, k - 1)
      else Bisect(net, active, lo, mid, k - 1)
  }

  ghost predicate Bracket(net: Network, active: seq<nat>, lo: real, hi: real)
    requires Physical(net) && Branches(net, active)
  {
    0.0 <= lo < hi <= net.source && Residual(net, active, lo) > 0.0 && Residual(net, active, hi) <= 0.0
  }

  lemma {:induction false} StartBrackets(net: Network, active: seq<nat>)
    requires Physical(net) && Branches(net, active)
    ensures Bracket(net, active, 0.0, net.source)
  {
    DrawnRises(net, active, 0.0, net.source);
    DivideRises(0.0, net.source, net.ohm);
  }

  // Every halving keeps the sign change inside.
  lemma {:induction false} BisectBrackets(net: Network, active: seq<nat>, lo: real, hi: real, k: nat)
    requires Physical(net) && Branches(net, active) && Bracket(net, active, lo, hi)
    ensures var r := Bisect(net, active, lo, hi, k); Bracket(net, active, r.0, r.1)
    decreases k
  {
    if k > 0 {
      var mid := (lo + hi) / 2.0;
      if Residual(net, active, mid) > 0.0 {
        BisectBrackets(net, active, mid, hi, k - 1);
      } else {
        BisectBrackets(net, active, lo, mid, k - 1);
      }
    }
  }

  function Halved(width: real, k: nat): real
    decreases k
  {
    if k == 0 then width else Halved(width / 2.0, k - 1)
  }

  lemma {:induction false} HalvedIsQuotient(width: real, k: nat)
    ensures Halved(width, k) == width / Pow2(k)
    decreases k
  {
    if k > 0 {
      HalvedIsQuotient(width / 2.0, k - 1);
      HalfQuotient(width, Pow2(k - 1));
    }
  }

  lemma {:induction false} HalfQuotient(width: real, p: real)
    requires p > 0.0
    ensures width / 2.0 / p == width / (2.0 * p)
  {
    var q := width / 2.0 / p;
    assert q * p == width / 2.0;
    assert q * (2.0 * p) == width;
  }

  lemma {:induction false} HalvedOnceMore(width: real, k: nat)
    ensures Halved(width, k + 1) == Halved(width, k) / 2.0
    decreases k
  {
    if k > 0 { HalvedOnceMore(width / 2.0, k - 1); }
  }

  // Every halving halves the width.
  lemma {:induction false} BisectWidth(net: Network, active: seq<nat>, lo: real, hi: real, k: nat)
    requires Physical(net) && Branches(net, active)
    ensures var r := Bisect(net, active, lo, hi, k); r.1 - r.0 == Halved(hi - lo, k)
    decreases k
  {
    if k > 0 {
      var mid := (lo + hi) / 2.0;
      assert (hi - lo) / 2.0 == hi - mid == mid - lo;
      if Residual(net, active, mid) > 0.0 {
        BisectWidth(net, active, mid, hi, k - 1);
      } else {
        BisectWidth(net, active, lo, mid, k - 1);
      }
    }
  }

  // The number of halvings the code makes.
  const HALVINGS: nat := 160

  // The bus voltage after k halvings.
  ghost function BusVoltage(net: Network, active: seq<nat>, k: nat): real
    requires Physical(net) && Branches(net, active)
  {
    var (lo, hi) := Bisect(net, active, 0.0, net.source, k);
    (lo + hi) / 2.0
  }

  // A sign change lies inside every bracket.
  lemma {:induction false} BracketHoldsChange(net: Network, active: seq<nat>, lo: real, hi: real, v: real)
    requires Physical(net) && Branches(net, active) && Bracket(net, active, lo, hi) && SignChange(net, active, v)
    ensures lo <= v <= hi
  {
  }

  lemma {:induction false} BusVoltageBracket(net: Network, active: seq<nat>, k: nat)
    requires Physical(net) && Branches(net, active)
    ensures var vb, w := BusVoltage(net, active, k), Halved(net.source, k + 1); Bracket(net, active, vb - w, vb + w)
  {
    StartBrackets(net, active);
    BisectBrackets(net, active, 0.0, net.source, k);
    BisectWidth(net, active, 0.0, net.source, k);
    HalvedOnceMore(net.source, k);
    var r := Bisect(net, active, 0.0, net.source, k);
    var vb, w := BusVoltage(net, active, k), Halved(net.source, k + 1);
    assert vb - w == r.0 && vb + w == r.1;
  }

  // After k halvings the answer is within source / 2^(k + 1) of the sign
  // change, and the residual is positive that far below the answer and not
  // positive that far above.
  lemma {:induction false} BusVoltageIsClose(net: Network, active: seq<nat>, k: nat)
    requires Physical(net) && Branches(net, active)
    ensures var vb, w := BusVoltage(net, active, k), net.source / Pow2(k + 1); Bracket(net, active, vb - w, vb + w)
    ensures forall v :: SignChange(net, active, v) ==>
              BusVoltage(net, active, k) - net.source / Pow2(k + 1) <= v
              <= BusVoltage(net, active, k) + net.source / Pow2(k + 1)
  {
    var vb, w := BusVoltage(net, active, k), net.source / Pow2(k + 1);
    BusVoltageBracket(net, active, k);
    HalvedIsQuotient(net.source, k + 1);
    forall v | SignChange(net, active, v) ensures vb - w <= v <= vb + w {
      BracketHoldsChange(net, active, vb - w, vb + w, v);
    }
  }

  // ---- two runs side by side ----

  // Adding branches draws more at every voltage.
  lemma {:induction false} MoreBranchesDrawMore(net: Network, active: seq<nat>, extra: seq<nat>, vb: real)
    requires Physical(net) && Branches(net, active) && Branches(net, active + extra)
    ensures Drawn(net, active, vb) <= Drawn(net, active + extra, vb)
    decreases |extra|
  {
    if extra == [] {
      assert active + extra == active;
    } else {
      var n := |extra| - 1;
      var all := active + extra;
      assert all[..|all| - 1] == active + extra[..n];
      MoreBranchesDrawMore(net, active, extra[..n], vb);
      BranchRises(net, all[|all| - 1], vb, vb);
    }
  }

  // From one bracket the two runs either keep it in common or part for good,
  // the run with more branches below the other.
  lemma {:induction false} RunsPart(net: Network, active: seq<nat>, extra: seq<nat>, lo: real, hi: real, k: nat)
    requires Physical(net) && Branches(net, active) && Branches(net, active + extra) && lo <= hi
    ensures var few, many := Bisect(net, active, lo, hi, k), Bisect(net, active + extra, lo, hi, k);
            few.0 <= few.1 && many.0 <= many.1 && (few == many || many.1 <= few.0)
    decreases k
  {
    Stays(net, active, lo, hi, k);
    Stays(net, active + extra, lo, hi, k);
    if k > 0 {
      var mid := (lo + hi) / 2.0;
      MoreBranchesDrawMore(net, active, extra, mid);
      if Residual(net, active + extra, mid) > 0.0 {
        RunsPart(net, active, extra, mid, hi, k - 1);
      } else if Residual(net, active, mid) > 0.0 {
        Stays(net, active, mid, hi, k - 1);
        Stays(net, active + extra, lo, mid, k - 1);
      } else {
        RunsPart(net, active, extra, lo, mid, k - 1);
      }
    }
  }

  lemma {:induction false} Stays(net: Network, active: seq<nat>, lo: real, hi: real, k: nat)
    requires Physical(net) && Branches(net, active) && lo <= hi
    ensures var r := Bisect(net, active, lo, hi, k); lo <= r.0 <= r.1 <= hi
    decreases k
  {
    if k > 0 {
      var mid := (lo + hi) / 2.0;
      if Residual(net, active, mid) > 0.0 {
        Stays(net, active, mid, hi, k - 1);
      } else {
        Stays(net, active, lo, mid, k - 1);
      }
    }
  }

  // What a stage reports of branch i at bus voltage v.
  ghost function Power(net: Network, v: real, i: nat): real
    requires Physical(net) && i < |net.scales|
  {
    v * BranchCurrent(net.curve, v, net.scales[i])
  }

  lemma {:induction false} PowerRises(net: Network, u: real, v: real, i: nat)
    requires Physical(net) && i < |net.scales| && 0.0 <= u <= v
    ensures 0.0 <= Power(net, u, i) <= Power(net, v, i)
  {
    BranchRises(net, i, u, v);
    ProductRises(u, v, BranchCurrent(net.curve, u, net.scales[i]), BranchCurrent(net.curve, v, net.scales[i]));
  }

  // However many halvings are made, the computed bus voltage never rises when
  // branches are added, and neither does any branch current or power; the
  // source current never falls.
  lemma {:induction false} VoltageNeverRises(net: Network, active: seq<nat>, extra: seq<nat>, k: nat, i: nat)
    requires Physical(net) && Branches(net, active) && Branches(net, active + extra) && i < |net.scales|
    ensures var few, many := BusVoltage(net, active, k), BusVoltage(net, active + extra, k);
            many <= few
            && BranchCurrent(net.curve, many, net.scales[i]) <= BranchCurrent(net.curve, few, net.scales[i])
            && Power(net, many, i) <= Power(net, few, i)
            && (net.source - few) / net.ohm <= (net.source - many) / net.ohm
  {
    RunsPart(net, active, extra, 0.0, net.source, k);
    Stays(net, active + extra, 0.0, net.source, k);
    var few, many := BusVoltage(net, active, k), BusVoltage(net, active + extra, k);
    BranchRises(net, i, many, few);
    PowerRises(net, many, few, i);
    DivideRises(net.source - few, net.source - many, net.ohm);
  }

  lemma {:induction false} ProductRises(a: real, b: real, c: real, d: real)
    requires 0.0 <= a <= b && 0.0 <= c <= d
    ensures a * c <= b * d
  {
    assert a * c <= b * c <= b * d;
  }

  // ---- the balance, in the words of the circuit ----

  // What the connected branches draw at a positive bus voltage: each the
  // current of the curve at its own share of that voltage.
  ghost function Load(net: Network, active: seq<nat>, u: real): real
    requires Physical(net) && Branches(net, active)
  {
    if active == [] then 0.0 else
      var n := |active| - 1;
      Load(net, active[..n], u) + net.curve(u / net.scales[active[n]])
  }

  // Below v the source can give more than the branches draw, above v no more.
  ghost predicate Settles(net: Network, active: seq<nat>, v: real)
    requires Physical(net) && Branches(net, active)
  {
    v >= 0.0
    && (forall u: real :: 0.0 < u < v ==> Load(net, active, u) < (net.source - u) / net.ohm)
    && (forall u: real :: u > v ==> Load(net, active, u) >= (net.source - u) / net.ohm)
  }

  lemma {:induction false} LoadIsDrawn(net: Network, active: seq<nat>, u: real)
    requires Physical(net) && Branches(net, active) && u > 0.0
    ensures Load(net, active, u) == Drawn(net, active, u)
  {
    if active != [] { LoadIsDrawn(net, active[..|active| - 1], u); }
  }

  lemma {:induction false} SettlesIsSignChange(net: Network, active: seq<nat>, v: real)
    requires Physical(net) && Branches(net, active)
    ensures Settles(net, active, v) <==> v >= 0.0 && SignChange(net, active, v)
  {
    forall u: real | u > 0.0 ensures Residual(net, active, u) == (net.source - u) / net.ohm - Load(net, active, u) {
      LoadIsDrawn(net, active, u);
    }
    forall u: real | u <= 0.0 ensures Residual(net, active, u) > 0.0 {
      DrawnRises(net, active, u, u);
      DivideRises(0.0, net.source - u, net.ohm);
    }
  }

  lemma {:induction false} AnswerIsPositive(net: Network, active: seq<nat>, k: nat)
    requires Physical(net) && Branches(net, active)
    ensures 0.0 < BusVoltage(net, active, k) <= net.source
  {
    BusVoltageBracket(net, active, k);
  }

  // The answer is within the last half-width of wherever the circuit settles.
  lemma {:induction false} AnswerSettles(net: Network, active: seq<nat>, v: real, k: nat)
    requires Physical(net) && Branches(net, active) && Settles(net, active, v)
    ensures BusVoltage(net, active, k) - net.source / Pow2(k + 1) <= v
         <= BusVoltage(net, active, k) + net.source / Pow2(k + 1)
  {
    SettlesIsSignChange(net, active, v);
    BusVoltageIsClose(net, active, k);
  }

  // ---- the code ----

  method SumActive(net: Network, active: seq<nat>, vb: real) returns (total: real)
    requires Physical(net) && Branches(net, active)
    ensures total == Drawn(net, active, vb)
  {
    total := 0.0;
    for k := 0 to |active|
      invariant total == Drawn(net, active[..k], vb)
    {
      assert active[..k + 1][..k] == active[..k];
      total := total + BranchCurrent(net.curve, vb, net.scales[active[k]]);
    }
    assert active[..|active|] == active;
  }

  method Bisection(net: Network, active: seq<nat>, halvings: nat) returns (vb: real)
    requires Physical(net) && Branches(net, active)
    ensures vb == BusVoltage(net, active, halvings)
  {
    var lo, hi := 0.0, net.source;
    for k := 0 to halvings
      invariant Bisect(net, active, lo, hi, halvings - k) == Bisect(net, active, 0.0, net.source, halvings)
    {
      var mid := (lo + hi) / 2.0;
      var drawn := SumActive(net, active, mid);
      if (net.source - mid) / net.ohm - drawn > 0.0 {
        lo := mid;
      } else {
        hi := mid;
      }
    }
    vb := (lo + hi) / 2.0;
  }

  // equilibrium, with the number of halvings left open; the code makes HALVINGS.
  method Solve(net: Network, active: seq<nat>, halvings: nat) returns (vb: real, currents: array<real>)
    requires Physical(net) && Branches(net, active)
    ensures vb == BusVoltage(net, active, halvings)
    ensures fresh(currents) && currents.Length == |net.scales|
    ensures forall i :: 0 <= i < |net.scales| ==>
              currents[i] == if i in active then BranchCurrent(net.curve, vb, net.scales[i]) else 0.0
    ensures forall v: real :: Settles(net, active, v) ==>
              vb - net.source / Pow2(halvings + 1) <= v <= vb + net.source / Pow2(halvings + 1)
    ensures 0.0 < vb <= net.source
    ensures forall i :: 0 <= i < |net.scales| ==>
              currents[i] == if i in active then net.curve(vb / net.scales[i]) else 0.0
  {
    vb := Bisection(net, active, halvings);
    AnswerIsPositive(net, active, halvings);
    forall v: real | Settles(net, active, v)
      ensures vb - net.source / Pow2(halvings + 1) <= v <= vb + net.source / Pow2(halvings + 1)
    {
      AnswerSettles(net, active, v, halvings);
    }
    currents := new real[|net.scales|](_ => 0.0);
    for k := 0 to |active|
      invariant fresh(currents)
      invariant forall i :: 0 <= i < |net.scales| ==>
        currents[i] == if i in active[..k] then BranchCurrent(net.curve, vb, net.scales[i]) else 0.0
    {
      currents[active[k]] := BranchCurrent(net.curve, vb, net.scales[active[k]]);
      assert active[..k + 1] == active[..k] + [active[k]];
    }
    assert active[..|active|] == active;
  }

  // The order holds each of the n branches once.
  predicate IsOrder(order: seq<int>, n: nat) {
    multiset(order) == multiset(seq(n, i => i))
  }

  lemma {:induction false} RangeHolds(n: nat, x: int)
    ensures multiset(seq(n, i => i))[x] == if 0 <= x < n then 1 else 0
  {
    if n > 0 {
      RangeHolds(n - 1, x);
      assert seq(n, i => i) == seq(n - 1, i => i) + [n - 1];
    }
  }

  lemma {:induction false} OrderInRange(order: seq<int>, n: nat, k: nat)
    requires IsOrder(order, n) && k < |order|
    ensures 0 <= order[k] < n
  {
    assert order[k] in multiset(order);
    RangeHolds(n, order[k]);
  }

  // The branches connected in stage k.
  ghost function Active(order: seq<nat>, k: nat): seq<nat>
    requires k < |order|
  {
    order[..k + 1]
  }

  // One column of the power matrix.
  ghost predicate Column(net: Network, active: seq<nat>, vb: real, powers: seq<real>)
    requires Physical(net)
  {
    |powers| == |net.scales|
    && forall i :: 0 <= i < |net.scales| ==> powers[i] == if i in active then Power(net, vb, i) else 0.0
  }

  // The currents times the bus voltage.
  function Scaled(vb: real, currents: seq<real>): (r: seq<real>)
    ensures |r| == |currents|
  {
    seq(|currents|, i requires 0 <= i < |currents| => vb * currents[i])
  }

  lemma {:induction false} ScaledAt(net: Network, active: seq<nat>, vb: real, i: nat, current: real)
    requires Physical(net) && i < |net.scales|
    requires current == if i in active then BranchCurrent(net.curve, vb, net.scales[i]) else 0.0
    ensures vb * current == if i in active then Power(net, vb, i) else 0.0
  {
  }

  lemma {:induction false} ScaledIsColumn(net: Network, active: seq<nat>, vb: real, currents: seq<real>)
    requires Physical(net) && |currents| == |net.scales|
    requires forall i :: 0 <= i < |net.scales| ==>
               currents[i] == if i in active then BranchCurrent(net.curve, vb, net.scales[i]) else 0.0
    ensures Column(net, active, vb, Scaled(vb, currents))
  {
    forall i | 0 <= i < |net.scales|
      ensures Scaled(vb, currents)[i] == if i in active then Power(net, vb, i) else 0.0 {
      ScaledAt(net, active, vb, i, currents[i]);
    }
  }

  // A stage in the words of the circuit: where these branches settle, and what
  // each of them takes there.
  ghost predicate StageMeans(net: Network, active: seq<nat>, halvings: nat, vb: real, powers: seq<real>)
    requires Physical(net) && Branches(net, active)
  {
    (forall v: real :: Settles(net, active, v) ==>
       vb - net.source / Pow2(halvings + 1) <= v <= vb + net.source / Pow2(halvings + 1))
    && |powers| == |net.scales|
    && forall i :: 0 <= i < |net.scales| ==>
         powers[i] == if i in active then vb * net.curve(vb / net.scales[i]) else 0.0
  }

  lemma {:induction false} ColumnMeans(net: Network, active: seq<nat>, halvings: nat, powers: seq<real>)
    requires Physical(net) && Branches(net, active)
    requires Column(net, active, BusVoltage(net, active, halvings), powers)
    ensures StageMeans(net, active, halvings, BusVoltage(net, active, halvings), powers)
  {
    AnswerIsPositive(net, active, halvings);
    forall v: real | Settles(net, active, v)
      ensures BusVoltage(net, active, halvings) - net.source / Pow2(halvings + 1) <= v
           <= BusVoltage(net, active, halvings) + net.source / Pow2(halvings + 1)
    {
      AnswerSettles(net, active, v, halvings);
    }
  }

  method StagePower(net: Network, active: seq<nat>, halvings: nat) returns (vb: real, column: seq<real>)
    requires Physical(net) && Branches(net, active)
    ensures vb == BusVoltage(net, active, halvings) && Column(net, active, vb, column)
    ensures StageMeans(net, active, halvings, vb, column)
  {
    var currents;
    vb, currents := Solve(net, active, halvings);
    column := Scaled(vb, currents[..]);
    ScaledIsColumn(net, active, vb, currents[..]);
    ColumnMeans(net, active, halvings, column);
  }

  // Stage j is done: its voltage, its column, and what they mean.
  ghost predicate Staged(net: Network, order: seq<nat>, j: nat, halvings: nat, vb: real, column: seq<real>)
    requires Physical(net) && Branches(net, order) && j < |order|
  {
    vb == BusVoltage(net, Active(order, j), halvings) && Column(net, Active(order, j), vb, column)
    && StageMeans(net, Active(order, j), halvings, vb, column)
  }

  // The stage loop of optimize: stage k connects the first k + 1 branches of
  // the order, and column k holds each branch's power in stage k.  An order
  // that is not a permutation of the branches is refused.
  method StagePowers(net: Network, order: seq<int>, halvings: nat)
    returns (ok: bool, voltages: seq<real>, columns: seq<seq<real>>)
    requires Physical(net)
    ensures ok <==> IsOrder(order, |net.scales|)
    ensures ok ==> |voltages| == |columns| == |order| == |net.scales|
                   && (forall k :: 0 <= k < |order| ==> 0 <= order[k] < |net.scales|)
    ensures ok ==> forall k :: 0 <= k < |order| ==>
              voltages[k] == BusVoltage(net, Active(order, k), halvings)
              && Column(net, Active(order, k), voltages[k], columns[k])
    ensures ok ==> forall k :: 0 <= k < |order| ==>
              StageMeans(net, order[..k + 1], halvings, voltages[k], columns[k])
  {
    var n := |net.scales|;
    voltages, columns := [], [];
    if !IsOrder(order, n) {
      return false, voltages, columns;
    }
    forall k | 0 <= k < |order| ensures 0 <= order[k] < n { OrderInRange(order, n, k); }
    OrderLength(order, n);
    for k := 0 to n
      invariant |voltages| == |columns| == k
      invariant forall j :: 0 <= j < k ==> Staged(net, order, j, halvings, voltages[j], columns[j])
    {
      var vb, column := StagePower(net, order[..k + 1], halvings);
      voltages, columns := voltages + [vb], columns + [column];
    }
    return true, voltages, columns;
  }

  lemma {:induction false} OrderLength(order: seq<int>, n: nat)
    requires IsOrder(order, n)
    ensures |order| == n
  {
    assert |multiset(order)| == |order|;
    assert |multiset(seq(n, i => i))| == |seq(n, i => i)| == n;
  }

  // Along the stages the bus voltage and the power of every connected branch
  // never rise.
  lemma {:induction false} StagesNeverRise(net: Network, order: seq<nat>, j: nat, k: nat, halvings: nat, i: nat)
    requires Physical(net) && Branches(net, order) && j <= k < |order| && i < |net.scales|
    ensures var early := BusVoltage(net, Active(order, j), halvings);
            var late := BusVoltage(net, Active(order, k), halvings);
            late <= early && Power(net, late, i) <= Power(net, early, i)
  {
    assert order[..k + 1] == order[..j + 1] + order[j + 1..k + 1];
    VoltageNeverRises(net, order[..j + 1], order[j + 1..k + 1], halvings, i);
  }

  // The 160 halvings of the code leave the answer within source / 2^161 of the
  // sign change.
  lemma {:induction false} AnswerIsClose(net: Network, active: seq<nat>, v: real)
    requires Physical(net) && Branches(net, active) && SignChange(net, active, v)
    ensures BusVoltage(net, active, HALVINGS) - net.source / Pow2(161) <= v
         <= BusVoltage(net, active, HALVINGS) + net.source / Pow2(161)
  {
    BusVoltageIsClose(net, active, HALVINGS);
  }
}
