// A stage of the network by its own equations: five tabulated arresters with
// their switches on one bus behind the source.
module StageMeaning {
  import opened Interpolation
  import opened StaticNetwork
  import opened ArresterStages
  import opened GridSearch

  // a is to b what c is to d.
  predicate Proportional(a: real, b: real, c: real, d: real) { a * d == c * b }

  // The point lies on the segment between two neighbouring points of the table.
  predicate OnSegment(net: Network, j: nat, amps: real, volts: real)
    requires Valid(net) && j + 1 < |net.current|
  {
    net.current[j] <= amps <= net.current[j + 1]
    && Proportional(volts - net.voltage[j], net.voltage[j + 1] - net.voltage[j],
                    amps - net.current[j], net.current[j + 1] - net.current[j])
  }

  ghost predicate OnCurve(net: Network, amps: real, volts: real)
    requires Valid(net)
  {
    exists j: nat :: j + 1 < |net.current| && OnSegment(net, j, amps, volts)
  }

  // Arrester and switch of branch i take the bus voltage.
  ghost predicate BranchHolds(net: Network, value: real, ohm: real, bus: real, amps: real, volts: real)
    requires Valid(net)
  {
    OnCurve(net, amps, volts) && value * volts + ohm * amps == bus
  }

  function Sum(amps: seq<real>): real
    requires |amps| == 5
  {
    amps[0] + amps[1] + amps[2] + amps[3] + amps[4]
  }

  // The stage with the first `closed` switches closed.
  ghost predicate Stage(net: Network, values: seq<real>, closed: int, bus: real, amps: seq<real>, volts: seq<real>)
    requires Valid(net) && Request(values, closed)
  {
    |amps| == 5 && |volts| == 5
    && (forall i :: 0 <= i < 5 ==>
          BranchHolds(net, values[i], if i < closed then net.on else net.off, bus, amps[i], volts[i]))
    && Sum(amps) == (net.source - bus) / net.sourceOhm
  }

  // ---- the table ----

  lemma {:induction false} SegmentLine(x: real, x0: real, x1: real, y0: real, y1: real, y: real)
    requires x0 < x1
    ensures y == Line(x, x0, x1, y0, y1) <==> Proportional(y - y0, y1 - y0, x - x0, x1 - x0)
  {
    var t := LineByFraction(x, x0, x1, y0, y1);
    SegmentFraction(t, x1 - x0, y1 - y0, x - x0, y - y0);
  }

  lemma {:induction false} SegmentFraction(t: real, d: real, e: real, b: real, c: real)
    requires d > 0.0 && b == t * d
    ensures c == t * e <==> c * d == b * e
  {
    assert b * e == (t * e) * d;
    if c * d == (t * e) * d { SameFraction(c, t * e, d); }
  }

  lemma {:induction false} InterpOnSegment(x: real, xs: seq<real>, ys: seq<real>, j: nat)
    requires |xs| == |ys| > 1 && Rising(xs) && j + 1 < |xs| && xs[j] <= x <= xs[j + 1]
    ensures Interp(x, xs, ys) == Line(x, xs[j], xs[j + 1], ys[j], ys[j + 1])
    decreases j
  {
    if j == 0 {
      LineEnds(xs[0], xs[1], ys[0], ys[1]);
      if x >= xs[1] { InterpAtFirst(xs, ys); }
    } else {
      RisingTail(xs);
      RisingFar(xs, 0, j);
      if j > 1 { RisingFar(xs, 1, j); }
      InterpOnSegment(x, xs[1..], ys[1..], j - 1);
    }
  }

  lemma {:induction false} LineEnds(x0: real, x1: real, y0: real, y1: real)
    requires x0 < x1
    ensures Line(x0, x0, x1, y0, y1) == y0 && Line(x1, x0, x1, y0, y1) == y1
  {
    var q := (y1 - y0) / (x1 - x0);
    assert q * (x1 - x0) == y1 - y0;
  }

  lemma {:induction false} InterpAtFirst(xs: seq<real>, ys: seq<real>)
    requires |xs| == |ys| > 1 && Rising(xs)
    ensures Interp(xs[1], xs, ys) == ys[1]
  {}

  // A point of a table's segment is the interpolation's.
  lemma {:induction false} SegmentInterp(x: real, xs: seq<real>, ys: seq<real>, j: nat, y: real)
    requires |xs| == |ys| > 1 && Rising(xs) && j + 1 < |xs| && xs[j] <= x <= xs[j + 1]
    ensures y == Interp(x, xs, ys) <==> Proportional(y - ys[j], ys[j + 1] - ys[j], x - xs[j], xs[j + 1] - xs[j])
  {
    InterpOnSegment(x, xs, ys, j);
    SegmentLine(x, xs[j], xs[j + 1], ys[j], ys[j + 1], y);
  }

  lemma {:induction false} SegmentInside(x: real, xs: seq<real>, j: nat)
    requires Rising(xs) && j + 1 < |xs| && xs[j] <= x <= xs[j + 1]
    ensures xs[0] <= x <= xs[|xs| - 1]
  {
    if j > 0 { RisingFar(xs, 0, j); }
    if j + 1 < |xs| - 1 { RisingFar(xs, j + 1, |xs| - 1); }
  }

  lemma {:induction false} SegmentDecides(net: Network, j: nat, amps: real, volts: real)
    requires Valid(net) && j + 1 < |net.current| && net.current[j] <= amps <= net.current[j + 1]
    ensures OnSegment(net, j, amps, volts) <==> volts == Interp(amps, net.current, net.voltage)
    ensures 0.0 <= amps <= MaxAmps(net)
  {
    SegmentInterp(amps, net.current, net.voltage, j, volts);
    SegmentInside(amps, net.current, j);
  }

  // The curve is the interpolation of the table.
  lemma {:induction false} CurveIsTable(net: Network, amps: real, volts: real)
    requires Valid(net)
    ensures OnCurve(net, amps, volts) <==>
            0.0 <= amps <= MaxAmps(net) && volts == Interp(amps, net.current, net.voltage)
  {
    if OnCurve(net, amps, volts) {
      var j: nat :| j + 1 < |net.current| && OnSegment(net, j, amps, volts);
      SegmentDecides(net, j, amps, volts);
    } else if 0.0 <= amps <= MaxAmps(net) {
      TableHasSpan(net);
      var j := SegmentOf(amps, net.current);
      SegmentDecides(net, j, amps, volts);
    }
  }

  lemma {:induction false} SegmentOf(x: real, xs: seq<real>) returns (j: nat)
    requires |xs| > 1 && Rising(xs) && xs[0] <= x <= xs[|xs| - 1]
    ensures j + 1 < |xs| && xs[j] <= x <= xs[j + 1]
  {
    if x <= xs[1] {
      j := 0;
    } else {
      RisingTail(xs);
      j := SegmentOf(x, xs[1..]);
      j := j + 1;
    }
  }

  // ---- the stage ----

  lemma {:induction false} HeldSolves(net: Network, value: real, ohm: real, bus: real, amps: real, volts: real)
    requires Valid(net)
    ensures BranchHolds(net, value, ohm, bus, amps, volts) <==>
            0.0 <= amps <= MaxAmps(net) && volts == Interp(amps, net.current, net.voltage)
            && Solves(bus, amps, net.current, net.voltage, value, ohm)
  {
    CurveIsTable(net, amps, volts);
  }

  lemma {:induction false} SolvesAmps(net: Network, values: seq<real>, closed: int, bus: real, i: nat, amps: real)
    requires Valid(net) && Request(values, closed) && i < 5 && 0.0 <= amps <= MaxAmps(net)
    requires Solves(bus, amps, net.current, net.voltage, values[i], Resistance(net, closed, i))
    ensures amps == Amps(net, values, closed, i, bus)
  {
    TableHasSpan(net);
    TableInverts(amps, net.current, net.voltage, values[i], Resistance(net, closed, i));
  }

  function SwitchOhm(net: Network, closed: int, i: nat): real { if i < closed then net.on else net.off }

  // A branch that holds at a bus voltage draws what the model says, ...
  lemma {:induction false} HeldBranch(net: Network, values: seq<real>, closed: int, bus: real, i: nat, amps: real,
          volts: real)
    requires Valid(net) && Request(values, closed) && i < 5
    requires BranchHolds(net, values[i], SwitchOhm(net, closed, i), bus, amps, volts)
    ensures amps == Amps(net, values, closed, i, bus) && volts == Interp(amps, net.current, net.voltage)
  {
    HeldSolves(net, values[i], SwitchOhm(net, closed, i), bus, amps, volts);
    SolvesAmps(net, values, closed, bus, i, amps);
  }

  // ... and at a root what the model says holds.
  lemma {:induction false} RootHolds(net: Network, values: seq<real>, closed: int, bus: real, i: nat)
    requires Valid(net) && Request(values, closed) && i < 5 && Root(net, values, closed, bus)
    ensures var amps := Amps(net, values, closed, i, bus);
            BranchHolds(net, values[i], SwitchOhm(net, closed, i), bus, amps, Interp(amps, net.current, net.voltage))
  {
    var amps := Amps(net, values, closed, i, bus);
    RootIsInside(net, values, closed, bus, i);
    HeldSolves(net, values[i], SwitchOhm(net, closed, i), bus, amps, Interp(amps, net.current, net.voltage));
  }

  lemma {:induction false} TotalOfFive(net: Network, values: seq<real>, closed: int, bus: real, amps: seq<real>)
    requires Valid(net) && Request(values, closed) && |amps| == 5
    requires forall i :: 0 <= i < 5 ==> amps[i] == Amps(net, values, closed, i, bus)
    ensures Total(net, values, closed, bus, BRANCHES) == Sum(amps)
  {
    assert Total(net, values, closed, bus, 0) == 0.0;
    assert Total(net, values, closed, bus, 1) == amps[0];
    assert Total(net, values, closed, bus, 2) == amps[0] + amps[1];
    assert Total(net, values, closed, bus, 3) == amps[0] + amps[1] + amps[2];
    assert Total(net, values, closed, bus, 4) == amps[0] + amps[1] + amps[2] + amps[3];
  }

  // The voltages of the arresters at these currents.
  function Volts(net: Network, amps: seq<real>): (volts: seq<real>)
    requires Valid(net)
    ensures |volts| == |amps|
  {
    seq(|amps|, i requires 0 <= i < |amps| => Interp(amps[i], net.current, net.voltage))
  }

  lemma {:induction false} StageIsRoot(net: Network, values: seq<real>, closed: int, bus: real, amps: seq<real>,
          volts: seq<real>)
    requires Valid(net) && Request(values, closed) && Stage(net, values, closed, bus, amps, volts)
    ensures Root(net, values, closed, bus) && volts == Volts(net, amps)
    ensures forall i :: 0 <= i < 5 ==> amps[i] == Amps(net, values, closed, i, bus)
    ensures Total(net, values, closed, bus, BRANCHES) == Sum(amps)
  {
    forall i | 0 <= i < 5
      ensures amps[i] == Amps(net, values, closed, i, bus) && volts[i] == Interp(amps[i], net.current, net.voltage)
    {
      HeldBranch(net, values, closed, bus, i, amps[i], volts[i]);
    }
    TotalOfFive(net, values, closed, bus, amps);
  }

  lemma {:induction false} RootIsStage(net: Network, values: seq<real>, closed: int, bus: real, amps: seq<real>)
    requires Valid(net) && Request(values, closed) && |amps| == 5 && Root(net, values, closed, bus)
    requires forall i :: 0 <= i < 5 ==> amps[i] == Amps(net, values, closed, i, bus)
    ensures Stage(net, values, closed, bus, amps, Volts(net, amps))
  {
    forall i | 0 <= i < 5
      ensures BranchHolds(net, values[i], if i < closed then net.on else net.off, bus, amps[i], Volts(net, amps)[i])
    {
      RootHolds(net, values, closed, bus, i);
    }
    TotalOfFive(net, values, closed, bus, amps);
  }

  // The roots of the balance are exactly the solutions of the stage.
  lemma {:induction false} StageExactly(net: Network, values: seq<real>, closed: int, bus: real, amps: seq<real>)
    requires Valid(net) && Request(values, closed) && |amps| == 5
    ensures (exists volts :: Stage(net, values, closed, bus, amps, volts)) <==>
            Root(net, values, closed, bus)
            && forall i :: 0 <= i < 5 ==> amps[i] == Amps(net, values, closed, i, bus)
  {
    if volts :| Stage(net, values, closed, bus, amps, volts) {
      StageIsRoot(net, values, closed, bus, amps, volts);
    }
    if Root(net, values, closed, bus) && forall i :: 0 <= i < 5 ==> amps[i] == Amps(net, values, closed, i, bus) {
      RootIsStage(net, values, closed, bus, amps);
    }
  }

  // What a stage reports: the new branch's share of the current, and its
  // arrester's power.
  lemma {:induction false} ShareMeans(net: Network, values: seq<real>, closed: int, bus: real, amps: seq<real>,
          volts: seq<real>, i: nat)
    requires Valid(net) && Request(values, closed) && Stage(net, values, closed, bus, amps, volts) && i < 5
    ensures Sum(amps) > 0.0 && Share(net, values, closed, bus, i) == amps[i] / Sum(amps)
  {
    StageIsRoot(net, values, closed, bus, amps, volts);
    RootIsInside(net, values, closed, bus, i);
    TotalFacts(net, values, closed, bus, BRANCHES);
  }

  // The arrester's voltage times its current.
  function ArresterPower(value: real, volts: real, amps: real): real { (value * volts) * amps }

  lemma {:induction false} HeatIs(b: Branch, value: real, volts: real, amps: real)
    requires b.volts == value * volts && b.amps == amps
    ensures ArresterHeat(b) == ArresterPower(value, volts, amps)
  {}

  lemma {:induction false} BranchIs(net: Network, values: seq<real>, closed: int, bus: real, i: nat, amps: real)
    requires Valid(net) && Request(values, closed) && i < 5 && amps == Amps(net, values, closed, i, bus)
    ensures BranchAt(net, values, closed, bus, i).volts == values[i] * Interp(amps, net.current, net.voltage)
    ensures BranchAt(net, values, closed, bus, i).amps == amps
  {}

  lemma {:induction false} PowerMeans(net: Network, values: seq<real>, closed: int, bus: real, amps: seq<real>,
          volts: seq<real>)
    requires Valid(net) && Request(values, closed) && Stage(net, values, closed, bus, amps, volts)
    ensures NewPower(net, values, closed, bus)
         == ArresterPower(values[closed - 1], volts[closed - 1], amps[closed - 1])
  {
    StageIsRoot(net, values, closed, bus, amps, volts);
    PowerAtRoot(net, values, closed, bus, amps[closed - 1], volts[closed - 1]);
  }

  lemma {:induction false} PowerAtRoot(net: Network, values: seq<real>, closed: int, bus: real, amps: real, volts: real)
    requires Valid(net) && Request(values, closed) && Root(net, values, closed, bus)
    requires amps == Amps(net, values, closed, closed - 1, bus) && volts == Interp(amps, net.current, net.voltage)
    ensures NewPower(net, values, closed, bus) == ArresterPower(values[closed - 1], volts, amps)
  {
    NewPowerIsTheArresters(net, values, closed, bus);
    BranchIs(net, values, closed, bus, closed - 1, amps);
    HeatIs(BranchAt(net, values, closed, bus, closed - 1), values[closed - 1], volts, amps);
  }

  // ---- the score ----

  // The score is the least new share of stages two to five.
  lemma {:induction false} ScoreIsLeast(net: Network, solver: Solver, values: seq<real>)
    requires Valid(net) && Request(values, 1)
    ensures forall k :: 2 <= k <= 5 ==> Score(net, solver, values, BRANCHES) <= NewShare(net, solver, values, k)
    ensures exists k :: 2 <= k <= 5 && Score(net, solver, values, BRANCHES) == NewShare(net, solver, values, k)
  {
    var two, three := Score(net, solver, values, 2), Score(net, solver, values, 3);
    var four, five := Score(net, solver, values, 4), Score(net, solver, values, 5);
    assert two == NewShare(net, solver, values, 2);
    assert three == Min(two, NewShare(net, solver, values, 3));
    assert four == Min(three, NewShare(net, solver, values, 4));
    assert five == Min(four, NewShare(net, solver, values, 5));
  }
}
