// The static equivalent of switched arrester branches: every branch is a
// tabulated arrester in series with its switch, all on one bus behind a
// resistive source.
module StaticNetwork {
  import opened Division
  import opened Interpolation

  datatype Network = Network(current: seq<real>, voltage: seq<real>, source: real, sourceOhm: real, on: real, off: real)

  const BRANCHES: nat := 5

  // What __post_init__ accepts.
  predicate Valid(net: Network) {
    0 < |net.current| == |net.voltage| && net.current[0] == 0.0 && net.voltage[0] == 0.0
    && Rising(net.current) && Rising(net.voltage)
    && net.source > 0.0 && net.sourceOhm > 0.0 && net.on >= 0.0 && net.off > net.on
    && net.source / net.sourceOhm <= net.current[|net.current| - 1]
  }

  // What stage accepts.
  predicate Request(values: seq<real>, closed: int) {
    |values| == BRANCHES && 1 <= closed <= BRANCHES && forall i :: 0 <= i < |values| ==> values[i] > 0.0
  }

  function Resistance(net: Network, closed: int, i: nat): real { if i < closed then net.on else net.off }

  // One row of combined knots: arrester and switch voltage at each table current.
  function Knots(current: seq<real>, voltage: seq<real>, scale: real, ohm: real): (r: seq<real>)
    requires |current| == |voltage|
    ensures |r| == |current|
  {
    seq(|current|, j requires 0 <= j < |current| => scale * voltage[j] + ohm * current[j])
  }

  lemma {:induction false} QuotientPositive(a: real, b: real)
    requires a > 0.0 && b > 0.0
    ensures a / b > 0.0
  {
  }

  lemma {:induction false} TableHasSpan(net: Network)
    requires Valid(net)
    ensures |net.current| > 1
  {
    QuotientPositive(net.source, net.sourceOhm);
  }

  lemma {:induction false} KnotRises(scale: real, ohm: real, v0: real, v1: real, i0: real, i1: real)
    requires scale > 0.0 && ohm >= 0.0 && v0 < v1 && i0 < i1
    ensures scale * v0 + ohm * i0 < scale * v1 + ohm * i1
  {
    assert scale * v0 < scale * v1;
    assert ohm * i0 <= ohm * i1;
  }

  lemma {:induction false} KnotsRise(current: seq<real>, voltage: seq<real>, scale: real, ohm: real)
    requires |current| == |voltage| && Rising(current) && Rising(voltage) && scale > 0.0 && ohm >= 0.0
    ensures Rising(Knots(current, voltage, scale, ohm))
  {
    var knots := Knots(current, voltage, scale, ohm);
    forall j | 0 <= j < |current| - 1 ensures knots[j] < knots[j + 1] {
      KnotRises(scale, ohm, voltage[j], voltage[j + 1], current[j], current[j + 1]);
    }
  }

  lemma {:induction false} KnotsTail(current: seq<real>, voltage: seq<real>, scale: real, ohm: real)
    requires |current| == |voltage| > 0
    ensures Knots(current, voltage, scale, ohm)[1..] == Knots(current[1..], voltage[1..], scale, ohm)
  {
    forall j | 0 <= j < |current| - 1
      ensures Knots(current, voltage, scale, ohm)[1..][j] == Knots(current[1..], voltage[1..], scale, ohm)[j] {
      assert current[1..][j] == current[j + 1] && voltage[1..][j] == voltage[j + 1];
    }
  }

  // ---- the combined table inverts the branch equation ----

  // One combined segment: the fraction of the knot interval is the fraction of
  // the current interval and of the voltage interval.
  lemma {:induction false} SegmentSolves(bus: real, scale: real, ohm: real, v0: real, v1: real, i0: real, i1: real,
          k0: real, k1: real)
    requires scale > 0.0 && ohm >= 0.0 && v0 < v1 && i0 < i1 && k0 < k1
    requires k0 == scale * v0 + ohm * i0 && k1 == scale * v1 + ohm * i1 && k0 < bus < k1
    ensures var amps := Line(bus, k0, k1, i0, i1);
            i0 < amps < i1 && scale * Line(amps, i0, i1, v0, v1) + ohm * amps == bus
  {
    var t := LineByFraction(bus, k0, k1, i0, i1);
    FractionOf(t, i0, i1);
    LineAtFraction(t, i0, i1, v0, v1);
    Mixed(t, scale, ohm, v0, v1, i0, i1);
  }

  lemma {:induction false} Mixed(t: real, scale: real, ohm: real, v0: real, v1: real, i0: real, i1: real)
    ensures scale * (v0 + t * (v1 - v0)) + ohm * (i0 + t * (i1 - i0))
         == (scale * v0 + ohm * i0) + t * ((scale * v1 + ohm * i1) - (scale * v0 + ohm * i0))
  {
  }

  // The bus voltage a branch needs to draw amps.
  function Needs(amps: real, current: seq<real>, voltage: seq<real>, scale: real, ohm: real): real
    requires |current| == |voltage| > 0 && Rising(current)
  {
    scale * Interp(amps, current, voltage) + ohm * amps
  }

  // amps solves the branch equation at this bus voltage.
  predicate Solves(bus: real, amps: real, current: seq<real>, voltage: seq<real>, scale: real, ohm: real)
    requires |current| == |voltage| > 0 && Rising(current)
  {
    Needs(amps, current, voltage, scale, ohm) == bus
  }

  lemma {:induction false} EndSolves(current: seq<real>, voltage: seq<real>, scale: real, ohm: real, end: nat)
    requires |current| == |voltage| > 1 && Rising(current) && Rising(voltage)
    requires end == 0 || end == |current| - 1
    ensures Solves(Knots(current, voltage, scale, ohm)[end], current[end], current, voltage, scale, ohm)
  {
    InterpRange(current[end], current, voltage);
  }

  lemma {:induction false} FirstSegmentSolves(bus: real, current: seq<real>, voltage: seq<real>, scale: real, ohm: real)
    requires |current| == |voltage| > 1 && Rising(current) && Rising(voltage) && scale > 0.0 && ohm >= 0.0
    requires var knots := Knots(current, voltage, scale, ohm); Rising(knots) && knots[0] < bus < knots[1]
    ensures Solves(bus, Interp(bus, Knots(current, voltage, scale, ohm), current), current, voltage, scale, ohm)
  {
    var knots := Knots(current, voltage, scale, ohm);
    SegmentSolves(bus, scale, ohm, voltage[0], voltage[1], current[0], current[1], knots[0], knots[1]);
  }

  lemma {:induction false} TailSolves(bus: real, amps: real, current: seq<real>, voltage: seq<real>, scale: real,
          ohm: real)
    requires |current| == |voltage| > 1 && Rising(current) && Rising(voltage) && amps >= current[1]
    requires Rising(current[1..]) && Solves(bus, amps, current[1..], voltage[1..], scale, ohm)
    ensures Solves(bus, amps, current, voltage, scale, ohm)
  {
  }

  // Interpolating the combined knots solves scale * V(I) + ohm * I == bus
  // exactly wherever the bus voltage lies within them.
  lemma {:induction false} TableSolves(bus: real, current: seq<real>, voltage: seq<real>, scale: real, ohm: real)
    requires |current| == |voltage| > 1 && Rising(current) && Rising(voltage) && scale > 0.0 && ohm >= 0.0
    requires var knots := Knots(current, voltage, scale, ohm);
             Rising(knots) && knots[0] <= bus <= knots[|knots| - 1]
    ensures Solves(bus, Interp(bus, Knots(current, voltage, scale, ohm), current), current, voltage, scale, ohm)
    decreases |current|
  {
    var n := |current| - 1;
    var knots := Knots(current, voltage, scale, ohm);
    InterpRange(bus, knots, current);
    if bus == knots[0] {
      EndSolves(current, voltage, scale, ohm, 0);
    } else if bus == knots[n] {
      EndSolves(current, voltage, scale, ohm, n);
    } else if bus < knots[1] {
      FirstSegmentSolves(bus, current, voltage, scale, ohm);
    } else {
      RisingTail(current);
      RisingTail(voltage);
      RisingTail(knots);
      KnotsTail(current, voltage, scale, ohm);
      TableSolves(bus, current[1..], voltage[1..], scale, ohm);
      InterpRange(bus, knots[1..], current[1..]);
      TailSolves(bus, Interp(bus, knots, current), current, voltage, scale, ohm);
    }
  }

  // More current needs a higher bus voltage.
  lemma {:induction false} SolvesRises(low: real, high: real, current: seq<real>, voltage: seq<real>, scale: real,
          ohm: real)
    requires |current| == |voltage| > 1 && Rising(current) && Rising(voltage) && scale > 0.0 && ohm >= 0.0
    requires current[0] <= low < high <= current[|current| - 1]
    ensures Needs(low, current, voltage, scale, ohm) < Needs(high, current, voltage, scale, ohm)
  {
    InterpRises(low, high, current, voltage);
    KnotRises(scale, ohm, Interp(low, current, voltage), Interp(high, current, voltage), low, high);
  }

  lemma {:induction false} SolvesUnique(bus: real, amps: real, other: real, current: seq<real>, voltage: seq<real>,
          scale: real, ohm: real)
    requires |current| == |voltage| > 1 && Rising(current) && Rising(voltage) && scale > 0.0 && ohm >= 0.0
    requires current[0] <= amps <= current[|current| - 1] && current[0] <= other <= current[|current| - 1]
    requires Solves(bus, amps, current, voltage, scale, ohm) && Solves(bus, other, current, voltage, scale, ohm)
    ensures amps == other
  {
    if amps < other { SolvesRises(amps, other, current, voltage, scale, ohm); }
    if other < amps { SolvesRises(other, amps, current, voltage, scale, ohm); }
  }

  lemma {:induction false} NeedsWithin(amps: real, current: seq<real>, voltage: seq<real>, scale: real, ohm: real)
    requires |current| == |voltage| > 1 && Rising(current) && Rising(voltage) && scale > 0.0 && ohm >= 0.0
    requires current[0] <= amps <= current[|current| - 1]
    ensures var knots := Knots(current, voltage, scale, ohm);
            knots[0] <= Needs(amps, current, voltage, scale, ohm) <= knots[|knots| - 1]
  {
    var n := |current| - 1;
    EndSolves(current, voltage, scale, ohm, 0);
    EndSolves(current, voltage, scale, ohm, n);
    NeedsRises(current[0], amps, current, voltage, scale, ohm);
    NeedsRises(amps, current[n], current, voltage, scale, ohm);
  }

  lemma {:induction false} NeedsRises(low: real, high: real, current: seq<real>, voltage: seq<real>, scale: real,
          ohm: real)
    requires |current| == |voltage| > 1 && Rising(current) && Rising(voltage) && scale > 0.0 && ohm >= 0.0
    requires current[0] <= low <= high <= current[|current| - 1]
    ensures Needs(low, current, voltage, scale, ohm) <= Needs(high, current, voltage, scale, ohm)
  {
    if low < high { SolvesRises(low, high, current, voltage, scale, ohm); }
  }

  // The other direction: the bus voltage a tabulated current needs
  // interpolates back to that current.
  lemma {:induction false} TableInverts(amps: real, current: seq<real>, voltage: seq<real>, scale: real, ohm: real)
    requires |current| == |voltage| > 1 && Rising(current) && Rising(voltage) && scale > 0.0 && ohm >= 0.0
    requires current[0] <= amps <= current[|current| - 1]
    ensures Rising(Knots(current, voltage, scale, ohm))
    ensures Interp(Needs(amps, current, voltage, scale, ohm), Knots(current, voltage, scale, ohm), current) == amps
  {
    KnotsRise(current, voltage, scale, ohm);
    NeedsWithin(amps, current, voltage, scale, ohm);
    var bus := Needs(amps, current, voltage, scale, ohm);
    TableSolves(bus, current, voltage, scale, ohm);
    var back := Interp(bus, Knots(current, voltage, scale, ohm), current);
    InterpRange(bus, Knots(current, voltage, scale, ohm), current);
    SolvesUnique(bus, back, amps, current, voltage, scale, ohm);
  }

  // ---- one stage ----

  // The current branch i draws at this bus voltage.
  function Amps(net: Network, values: seq<real>, closed: int, i: nat, bus: real): real
    requires Valid(net) && Request(values, closed) && i < |values|
  {
    var ohm := Resistance(net, closed, i);
    KnotsRise(net.current, net.voltage, values[i], ohm);
    Interp(bus, Knots(net.current, net.voltage, values[i], ohm), net.current)
  }

  function Total(net: Network, values: seq<real>, closed: int, bus: real, k: nat): real
    requires Valid(net) && Request(values, closed) && k <= |values|
  {
    if k == 0 then 0.0 else Total(net, values, closed, bus, k - 1) + Amps(net, values, closed, k - 1, bus)
  }

  function Balance(net: Network, values: seq<real>, closed: int, bus: real): real
    requires Valid(net) && Request(values, closed)
  {
    Total(net, values, closed, bus, BRANCHES) - (net.source - bus) / net.sourceOhm
  }

  function MaxAmps(net: Network): real
    requires Valid(net)
  {
    net.current[|net.current| - 1]
  }

  lemma {:induction false} AmpsFacts(net: Network, values: seq<real>, closed: int, i: nat, bus: real)
    requires Valid(net) && Request(values, closed) && i < |values|
    ensures var amps := Amps(net, values, closed, i, bus);
            0.0 <= amps <= MaxAmps(net) && (bus <= 0.0 <==> amps == 0.0)
            && (0.0 <= bus && amps < MaxAmps(net) ==>
                  Solves(bus, amps, net.current, net.voltage, values[i], Resistance(net, closed, i)))
  {
    var ohm := Resistance(net, closed, i);
    var knots := Knots(net.current, net.voltage, values[i], ohm);
    TableHasSpan(net);
    KnotsRise(net.current, net.voltage, values[i], ohm);
    InterpRange(bus, knots, net.current);
    assert knots[0] == 0.0;
    if 0.0 <= bus && Amps(net, values, closed, i, bus) < MaxAmps(net) {
      TableSolves(bus, net.current, net.voltage, values[i], ohm);
    }
  }

  lemma {:induction false} AmpsRise(net: Network, values: seq<real>, closed: int, i: nat, bus: real, higher: real)
    requires Valid(net) && Request(values, closed) && i < |values| && bus <= higher
    ensures Amps(net, values, closed, i, bus) <= Amps(net, values, closed, i, higher)
  {
    TableHasSpan(net);
    KnotsRise(net.current, net.voltage, values[i], Resistance(net, closed, i));
    InterpRises(bus, higher, Knots(net.current, net.voltage, values[i], Resistance(net, closed, i)), net.current);
  }

  // Each branch draws no more than all of them together.
  lemma {:induction false} TotalFacts(net: Network, values: seq<real>, closed: int, bus: real, k: nat)
    requires Valid(net) && Request(values, closed) && k <= |values|
    ensures Total(net, values, closed, bus, k) >= 0.0
    ensures forall i :: 0 <= i < k ==> Amps(net, values, closed, i, bus) <= Total(net, values, closed, bus, k)
    ensures bus <= 0.0 ==> Total(net, values, closed, bus, k) == 0.0
    ensures bus > 0.0 && k > 0 ==> Total(net, values, closed, bus, k) > 0.0
  {
    if k > 0 {
      TotalFacts(net, values, closed, bus, k - 1);
      AmpsFacts(net, values, closed, k - 1, bus);
    }
  }

  lemma {:induction false} TotalRises(net: Network, values: seq<real>, closed: int, bus: real, higher: real, k: nat)
    requires Valid(net) && Request(values, closed) && k <= |values| && bus <= higher
    ensures Total(net, values, closed, bus, k) <= Total(net, values, closed, higher, k)
  {
    if k > 0 {
      TotalRises(net, values, closed, bus, higher, k - 1);
      AmpsRise(net, values, closed, k - 1, bus, higher);
    }
  }

  // The balance rises strictly and changes sign between 0 and the source
  // voltage, as the root finder needs; so it has at most one root.
  lemma {:induction false} BalanceBrackets(net: Network, values: seq<real>, closed: int)
    requires Valid(net) && Request(values, closed)
    ensures Balance(net, values, closed, 0.0) < 0.0 < Balance(net, values, closed, net.source)
  {
    TotalFacts(net, values, closed, 0.0, BRANCHES);
    TotalFacts(net, values, closed, net.source, BRANCHES);
    QuotientPositive(net.source, net.sourceOhm);
  }

  lemma {:induction false} BalanceRises(net: Network, values: seq<real>, closed: int, bus: real, higher: real)
    requires Valid(net) && Request(values, closed) && bus < higher
    ensures Balance(net, values, closed, bus) < Balance(net, values, closed, higher)
  {
    TotalRises(net, values, closed, bus, higher, BRANCHES);
    DivideRises(net.source - higher, net.source - bus, net.sourceOhm);
  }

  ghost predicate Root(net: Network, values: seq<real>, closed: int, bus: real)
    requires Valid(net) && Request(values, closed)
  {
    Balance(net, values, closed, bus) == 0.0
  }

  lemma {:induction false} RootIsUnique(net: Network, values: seq<real>, closed: int, bus: real, other: real)
    requires Valid(net) && Request(values, closed) && Root(net, values, closed, bus) && Root(net, values, closed, other)
    ensures bus == other
  {
    if bus < other { BalanceRises(net, values, closed, bus, other); }
    if other < bus { BalanceRises(net, values, closed, other, bus); }
  }

  // At the root the bus lies strictly between zero and the source, no branch
  // sits at the clamped end of its table, and each branch current solves its
  // own branch equation exactly.
  lemma {:induction false} RootIsInside(net: Network, values: seq<real>, closed: int, bus: real, i: nat)
    requires Valid(net) && Request(values, closed) && Root(net, values, closed, bus) && i < BRANCHES
    ensures 0.0 < bus < net.source
    ensures 0.0 < Amps(net, values, closed, i, bus) < MaxAmps(net)
    ensures Solves(bus, Amps(net, values, closed, i, bus), net.current, net.voltage, values[i],
                   Resistance(net, closed, i))
  {
    BalanceBrackets(net, values, closed);
    if bus < 0.0 { BalanceRises(net, values, closed, bus, 0.0); }
    if bus > net.source { BalanceRises(net, values, closed, net.source, bus); }
    TotalFacts(net, values, closed, bus, BRANCHES);
    AmpsFacts(net, values, closed, i, bus);
    DivideRises(net.source - bus, net.source, net.sourceOhm);
  }
}
