// What a solved stage reports: shares, powers, and how one stage follows
// another.
module ArresterStages {
  import opened Division
  import opened Interpolation
  import opened StaticNetwork

  // The current share of branch i at this bus voltage.
  function Share(net: Network, values: seq<real>, closed: int, bus: real, i: nat): real
    requires Valid(net) && Request(values, closed) && i < BRANCHES
  {
    var total := Total(net, values, closed, bus, BRANCHES);
    if total == 0.0 then 0.0 else Amps(net, values, closed, i, bus) / total
  }

  function ShareSum(net: Network, values: seq<real>, closed: int, bus: real, k: nat): real
    requires Valid(net) && Request(values, closed) && k <= BRANCHES
  {
    if k == 0 then 0.0 else ShareSum(net, values, closed, bus, k - 1) + Share(net, values, closed, bus, k - 1)
  }

  lemma {:induction false} QuotientSum(a: real, b: real, total: real)
    requires total > 0.0
    ensures a / total + b / total == (a + b) / total
  {
  }

  lemma {:induction false} ShareSumIsQuotient(net: Network, values: seq<real>, closed: int, bus: real, k: nat)
    requires Valid(net) && Request(values, closed) && k <= BRANCHES && bus > 0.0
    ensures Total(net, values, closed, bus, BRANCHES) > 0.0
    ensures ShareSum(net, values, closed, bus, k)
         == Total(net, values, closed, bus, k) / Total(net, values, closed, bus, BRANCHES)
  {
    TotalFacts(net, values, closed, bus, BRANCHES);
    if k > 0 {
      ShareSumIsQuotient(net, values, closed, bus, k - 1);
      QuotientSum(Total(net, values, closed, bus, k - 1), Amps(net, values, closed, k - 1, bus),
                  Total(net, values, closed, bus, BRANCHES));
    }
  }

  lemma {:induction false} QuotientWithin(a: real, total: real)
    requires 0.0 < a <= total
    ensures 0.0 < a / total <= 1.0
  {
  }

  lemma {:induction false} ShareWithin(net: Network, values: seq<real>, closed: int, bus: real, i: nat)
    requires Valid(net) && Request(values, closed) && bus > 0.0 && i < BRANCHES
    ensures 0.0 < Share(net, values, closed, bus, i) <= 1.0
  {
    AmpsFacts(net, values, closed, i, bus);
    TotalFacts(net, values, closed, bus, BRANCHES);
    QuotientWithin(Amps(net, values, closed, i, bus), Total(net, values, closed, bus, BRANCHES));
  }

  // At the root every share is positive and at most one, and they sum to one.
  lemma {:induction false} SharesAreAPartition(net: Network, values: seq<real>, closed: int, bus: real, i: nat)
    requires Valid(net) && Request(values, closed) && Root(net, values, closed, bus) && i < BRANCHES
    ensures 0.0 < Share(net, values, closed, bus, i) <= 1.0
    ensures ShareSum(net, values, closed, bus, BRANCHES) == 1.0
  {
    RootIsInside(net, values, closed, bus, i);
    ShareWithin(net, values, closed, bus, i);
    ShareSumIsQuotient(net, values, closed, bus, BRANCHES);
  }

  // ---- power ----

  // One branch at some bus voltage: the arrester's voltage, the switch's
  // resistance and the current through both.
  datatype Branch = Branch(volts: real, ohm: real, amps: real)

  predicate Balanced(b: Branch, bus: real) { b.volts + b.ohm * b.amps == bus }

  function ArresterHeat(b: Branch): real { b.volts * b.amps }

  // What a branch turns into heat: arrester and switch.
  function Heat(b: Branch): real { ArresterHeat(b) + b.ohm * b.amps * b.amps }

  function TotalHeat(bs: seq<Branch>): real {
    if bs == [] then 0.0 else TotalHeat(bs[..|bs| - 1]) + Heat(bs[|bs| - 1])
  }

  function TotalAmps(bs: seq<Branch>): real {
    if bs == [] then 0.0 else TotalAmps(bs[..|bs| - 1]) + bs[|bs| - 1].amps
  }

  lemma {:induction false} BalancedHeat(b: Branch, bus: real)
    requires Balanced(b, bus)
    ensures Heat(b) == bus * b.amps && (bus - b.ohm * b.amps) * b.amps == ArresterHeat(b)
  {
    assert bus * b.amps == (b.volts + b.ohm * b.amps) * b.amps;
  }

  lemma {:induction false} HeatStep(bus: real, heat: real, total: real, more: real, amps: real)
    requires heat == bus * total && more == bus * amps
    ensures heat + more == bus * (total + amps)
  {}

  predicate AllBalanced(bs: seq<Branch>, bus: real) { forall b :: b in bs ==> Balanced(b, bus) }

  // Balanced branches together take the bus voltage times their current.
  lemma {:induction false} BalancedHeats(bs: seq<Branch>, bus: real)
    requires AllBalanced(bs, bus)
    ensures TotalHeat(bs) == bus * TotalAmps(bs)
  {
    if bs != [] {
      var rest, last := bs[..|bs| - 1], bs[|bs| - 1];
      BalancedHeats(rest, bus);
      BalancedHeat(last, bus);
      HeatStep(bus, TotalHeat(rest), TotalAmps(rest), Heat(last), last.amps);
    }
  }

  function BranchOf(amps: real, current: seq<real>, voltage: seq<real>, scale: real, ohm: real): Branch
    requires |current| == |voltage| > 0 && Rising(current)
  {
    Branch(scale * Interp(amps, current, voltage), ohm, amps)
  }

  function BranchAt(net: Network, values: seq<real>, closed: int, bus: real, i: nat): Branch
    requires Valid(net) && Request(values, closed) && i < BRANCHES
  {
    BranchOf(Amps(net, values, closed, i, bus), net.current, net.voltage, values[i], Resistance(net, closed, i))
  }

  function Branches(net: Network, values: seq<real>, closed: int, bus: real): (r: seq<Branch>)
    requires Valid(net) && Request(values, closed)
    ensures |r| == BRANCHES
  {
    seq(BRANCHES, i requires 0 <= i < BRANCHES => BranchAt(net, values, closed, bus, i))
  }

  lemma {:induction false} TotalIsSum(net: Network, values: seq<real>, closed: int, bus: real, k: nat)
    requires Valid(net) && Request(values, closed) && k <= BRANCHES
    ensures Total(net, values, closed, bus, k) == TotalAmps(Branches(net, values, closed, bus)[..k])
  {
    if k > 0 {
      TotalIsSum(net, values, closed, bus, k - 1);
      var all := Branches(net, values, closed, bus);
      assert all[..k][..k - 1] == all[..k - 1];
    }
  }

  lemma {:induction false} SolvesIsBalanced(bus: real, amps: real, current: seq<real>, voltage: seq<real>, scale: real,
          ohm: real)
    requires |current| == |voltage| > 0 && Rising(current) && Solves(bus, amps, current, voltage, scale, ohm)
    ensures Balanced(BranchOf(amps, current, voltage, scale, ohm), bus)
  {}

  // At the root every branch is balanced.
  lemma {:induction false} RootBalances(net: Network, values: seq<real>, closed: int, bus: real, i: nat)
    requires Valid(net) && Request(values, closed) && Root(net, values, closed, bus) && i < BRANCHES
    ensures Balanced(BranchAt(net, values, closed, bus, i), bus)
  {
    RootIsInside(net, values, closed, bus, i);
    SolvesIsBalanced(bus, Amps(net, values, closed, i, bus), net.current, net.voltage, values[i],
                     Resistance(net, closed, i));
  }

  lemma {:induction false} RootBalancesAll(net: Network, values: seq<real>, closed: int, bus: real)
    requires Valid(net) && Request(values, closed) && Root(net, values, closed, bus)
    ensures AllBalanced(Branches(net, values, closed, bus), bus)
  {
    var bs := Branches(net, values, closed, bus);
    forall b | b in bs ensures Balanced(b, bus) {
      var i :| 0 <= i < BRANCHES && bs[i] == b;
      RootBalances(net, values, closed, bus, i);
    }
  }

  // The resistance takes exactly the drop.
  predicate Drops(ohm: real, total: real, drop: real) { ohm * total == drop }

  // The source's power is what its resistance and the branches turn into heat.
  predicate PowerSplits(source: real, ohm: real, total: real, heat: real) {
    source * total == ohm * total * total + heat
  }

  lemma {:induction false} SourceSplits(source: real, bus: real, ohm: real, total: real, heat: real)
    requires Drops(ohm, total, source - bus) && heat == bus * total
    ensures PowerSplits(source, ohm, total, heat)
  {
    assert (source - bus) * total == ohm * total * total;
  }

  lemma {:induction false} QuotientDrops(drop: real, ohm: real, total: real)
    requires ohm > 0.0 && total == drop / ohm
    ensures Drops(ohm, total, drop)
  {}

  lemma {:induction false} RootTotal(net: Network, values: seq<real>, closed: int, bus: real)
    requires Valid(net) && Request(values, closed) && Root(net, values, closed, bus)
    ensures Drops(net.sourceOhm, Total(net, values, closed, bus, BRANCHES), net.source - bus)
  {
    QuotientDrops(net.source - bus, net.sourceOhm, Total(net, values, closed, bus, BRANCHES));
  }

  lemma {:induction false} AmpsAreTotal(net: Network, values: seq<real>, closed: int, bus: real)
    requires Valid(net) && Request(values, closed)
    ensures TotalAmps(Branches(net, values, closed, bus)) == Total(net, values, closed, bus, BRANCHES)
  {
    TotalIsSum(net, values, closed, bus, BRANCHES);
    var bs := Branches(net, values, closed, bus);
    assert bs[..BRANCHES] == bs;
  }

  lemma {:induction false} HeatSplits(bs: seq<Branch>, source: real, ohm: real, bus: real, total: real)
    requires AllBalanced(bs, bus) && TotalAmps(bs) == total && Drops(ohm, total, source - bus)
    ensures PowerSplits(source, ohm, total, TotalHeat(bs))
  {
    BalancedHeats(bs, bus);
    SourceSplits(source, bus, ohm, total, TotalHeat(bs));
  }

  // The source's power is exactly what its resistance, the switches and the
  // arresters turn into heat.
  lemma {:induction false} PowerIsConserved(net: Network, values: seq<real>, closed: int, bus: real)
    requires Valid(net) && Request(values, closed) && Root(net, values, closed, bus)
    ensures PowerSplits(net.source, net.sourceOhm, Total(net, values, closed, bus, BRANCHES),
                        TotalHeat(Branches(net, values, closed, bus)))
  {
    RootBalancesAll(net, values, closed, bus);
    AmpsAreTotal(net, values, closed, bus);
    RootTotal(net, values, closed, bus);
    HeatSplits(Branches(net, values, closed, bus), net.source, net.sourceOhm, bus,
               Total(net, values, closed, bus, BRANCHES));
  }

  // The power of a branch seen from the bus, less that of its switch.
  function PowerBehind(bus: real, on: real, amps: real): real { (bus - on * amps) * amps }

  // new_power_MW
  function NewPower(net: Network, values: seq<real>, closed: int, bus: real): real
    requires Valid(net) && Request(values, closed)
  {
    PowerBehind(bus, net.on, Amps(net, values, closed, closed - 1, bus))
  }

  lemma {:induction false} LastHeat(b: Branch, bus: real, on: real, amps: real)
    requires Balanced(b, bus) && b.ohm == on && b.amps == amps
    ensures PowerBehind(bus, on, amps) == ArresterHeat(b)
  {
    BalancedHeat(b, bus);
  }

  // The reported new power is the newly closed arrester's own heat.
  lemma {:induction false} NewPowerIsTheArresters(net: Network, values: seq<real>, closed: int, bus: real)
    requires Valid(net) && Request(values, closed) && Root(net, values, closed, bus)
    ensures NewPower(net, values, closed, bus) == ArresterHeat(BranchAt(net, values, closed, bus, closed - 1))
  {
    RootBalances(net, values, closed, bus, closed - 1);
    LastHeat(BranchAt(net, values, closed, bus, closed - 1), bus, net.on, Amps(net, values, closed, closed - 1, bus));
  }

  // ---- closing one more switch ----

  lemma {:induction false} NeedsMoreWithOhm(amps: real, current: seq<real>, voltage: seq<real>, scale: real,
          ohm: real, more: real)
    requires |current| == |voltage| > 0 && Rising(current) && amps >= 0.0 && ohm <= more
    ensures Needs(amps, current, voltage, scale, ohm) <= Needs(amps, current, voltage, scale, more)
  {
    assert ohm * amps <= more * amps;
  }

  lemma {:induction false} TableNeedsAtMost(bus: real, current: seq<real>, voltage: seq<real>, scale: real, ohm: real)
    requires |current| == |voltage| > 1 && Rising(current) && Rising(voltage) && scale > 0.0 && ohm >= 0.0
    requires Rising(Knots(current, voltage, scale, ohm)) && Knots(current, voltage, scale, ohm)[0] <= bus
    ensures var amps := Interp(bus, Knots(current, voltage, scale, ohm), current);
            current[0] <= amps <= current[|current| - 1] && Needs(amps, current, voltage, scale, ohm) <= bus
            && (amps < current[|current| - 1] ==> Needs(amps, current, voltage, scale, ohm) == bus)
  {
    var knots := Knots(current, voltage, scale, ohm);
    InterpRange(bus, knots, current);
    if bus <= knots[|knots| - 1] {
      TableSolves(bus, current, voltage, scale, ohm);
    } else {
      EndSolves(current, voltage, scale, ohm, |current| - 1);
    }
  }

  // A smaller series resistance draws no less current at the same bus voltage.
  lemma {:induction false} LessOhmMoreAmps(bus: real, current: seq<real>, voltage: seq<real>, scale: real, ohm: real,
          more: real)
    requires |current| == |voltage| > 1 && Rising(current) && Rising(voltage) && scale > 0.0 && 0.0 <= ohm <= more
    requires current[0] == 0.0 && voltage[0] == 0.0 && bus >= 0.0
    requires Rising(Knots(current, voltage, scale, ohm)) && Rising(Knots(current, voltage, scale, more))
    ensures Interp(bus, Knots(current, voltage, scale, more), current)
         <= Interp(bus, Knots(current, voltage, scale, ohm), current)
  {
    var low := Interp(bus, Knots(current, voltage, scale, more), current);
    var high := Interp(bus, Knots(current, voltage, scale, ohm), current);
    assert Knots(current, voltage, scale, ohm)[0] == 0.0 == Knots(current, voltage, scale, more)[0];
    TableNeedsAtMost(bus, current, voltage, scale, ohm);
    TableNeedsAtMost(bus, current, voltage, scale, more);
    if high < low {
      NeedsMoreWithOhm(high, current, voltage, scale, ohm, more);
      SolvesRises(high, low, current, voltage, scale, more);
    }
  }

  lemma {:induction false} ClosingDrawsMore(net: Network, values: seq<real>, closed: int, bus: real, i: nat)
    requires Valid(net) && Request(values, closed) && Request(values, closed + 1) && bus >= 0.0 && i < BRANCHES
    ensures Amps(net, values, closed, i, bus) <= Amps(net, values, closed + 1, i, bus)
  {
    TableHasSpan(net);
    KnotsRise(net.current, net.voltage, values[i], Resistance(net, closed, i));
    KnotsRise(net.current, net.voltage, values[i], Resistance(net, closed + 1, i));
    LessOhmMoreAmps(bus, net.current, net.voltage, values[i], Resistance(net, closed + 1, i),
      Resistance(net, closed, i));
  }

  lemma {:induction false} ClosingTotalsMore(net: Network, values: seq<real>, closed: int, bus: real, k: nat)
    requires Valid(net) && Request(values, closed) && Request(values, closed + 1) && bus >= 0.0 && k <= BRANCHES
    ensures Total(net, values, closed, bus, k) <= Total(net, values, closed + 1, bus, k)
  {
    if k > 0 {
      ClosingTotalsMore(net, values, closed, bus, k - 1);
      ClosingDrawsMore(net, values, closed, bus, k - 1);
    }
  }

  // Closing one more switch never raises the bus voltage, never raises the
  // current of any other branch and never lowers the source current.
  lemma {:induction false} ClosingLowersTheBus(net: Network, values: seq<real>, closed: int, before: real,
          after: real, i: nat)
    requires Valid(net) && Request(values, closed) && Request(values, closed + 1) && i < BRANCHES && i != closed
    requires Root(net, values, closed, before) && Root(net, values, closed + 1, after)
    ensures after <= before
    ensures Amps(net, values, closed + 1, i, after) <= Amps(net, values, closed, i, before)
    ensures Total(net, values, closed, before, BRANCHES) <= Total(net, values, closed + 1, after, BRANCHES)
  {
    RootIsInside(net, values, closed, before, i);
    ClosingTotalsMore(net, values, closed, before, BRANCHES);
    if before < after { BalanceRises(net, values, closed + 1, before, after); }
    AmpsRise(net, values, closed, i, after, before);
    assert Resistance(net, closed, i) == Resistance(net, closed + 1, i);
    if after < before { DivideRises(net.source - before, net.source - after, net.sourceOhm); }
  }
}
