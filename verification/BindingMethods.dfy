// The two entry points as the source runs them, filling dictionaries in loops.
module BindingMethods {
  import opened Options
  import opened MasterBindings
  import opened BindingRoundTrip
  import opened BindingMeaning

  // Enters each value under its name, replacing what the name held.
  method UpdateZip(m: Params, names: seq<string>, values: seq<Value>) returns (r: Params)
    requires |names| == |values| && NoDup(names)
    ensures r.Keys == m.Keys + set n | n in names
    ensures forall i :: 0 <= i < |names| ==> names[i] in r && r[names[i]] == values[i]
    ensures forall n :: n in m && n !in names ==> r[n] == m[n]
  {
    r := m;
    for k := 0 to |names|
      invariant r.Keys == m.Keys + set n | n in names[..k]
      invariant forall i :: 0 <= i < k ==> names[i] in r && r[names[i]] == values[i]
      invariant forall n :: n in m && n !in names[..k] ==> r[n] == m[n]
    {
      assert names[..k + 1] == names[..k] + [names[k]];
      r := r[names[k] := values[k]];
    }
    assert names[..|names|] == names;
  }

  lemma {:induction false} NamesConcat(a: seq<Parameter>, b: seq<Parameter>)
    ensures PhysicalNames(a + b) == PhysicalNames(a) + PhysicalNames(b)
    ensures LogicalNames(a + b) == LogicalNames(a) + LogicalNames(b)
  {
    if a == [] {
      assert a + b == b;
    } else {
      NamesConcat(a[1..], b);
      assert (a + b)[1..] == a[1..] + b && (a + b)[0] == a[0];
    }
  }

  lemma {:induction false} NamesOfOne(p: Parameter)
    ensures PhysicalNames([p]) == p.physical && LogicalNames([p]) == p.logical
  {
    assert [p][1..] == [];
    assert p.physical + [] == p.physical && p.logical + [] == p.logical;
  }

  lemma {:induction false} NamesSplit(ps: seq<Parameter>, k: nat)
    requires k < |ps|
    ensures PhysicalNames(ps) == PhysicalNames(ps[..k]) + (ps[k].physical + PhysicalNames(ps[k + 1..]))
    ensures LogicalNames(ps) == LogicalNames(ps[..k]) + (ps[k].logical + LogicalNames(ps[k + 1..]))
    ensures PhysicalNames(ps[..k + 1]) == PhysicalNames(ps[..k]) + ps[k].physical
    ensures LogicalNames(ps[..k + 1]) == LogicalNames(ps[..k]) + ps[k].logical
  {
    var front, one, back := ps[..k], [ps[k]], ps[k + 1..];
    NamesOfOne(ps[k]);
    NamesConcat(front, one);
    NamesConcat(one, back);
    NamesConcat(front, one + back);
    assert ps == front + (one + back) && ps[..k + 1] == front + one;
  }

  lemma {:induction false} NamesStep(ps: seq<Parameter>, k: nat)
    requires k < |ps|
    ensures PhysicalNames(ps[..k + 1]) == PhysicalNames(ps[..k]) + ps[k].physical
    ensures LogicalNames(ps[..k + 1]) == LogicalNames(ps[..k]) + ps[k].logical
  {
    NamesSplit(ps, k);
  }

  // The names of parameter k are new: nothing written before carries them.
  lemma {:induction false} FreshNames(b: Binding, k: nat)
    requires BindingShaped(b) && k < |b.parameters|
    ensures NoDup(b.parameters[k].physical) && NoDup(b.parameters[k].logical)
    ensures forall n :: n in b.parameters[k].physical ==>
              n !in FixedNames(b.fixed) && n !in PhysicalNames(b.parameters[..k])
    ensures forall n :: n in b.parameters[k].logical ==> n !in LogicalNames(b.parameters[..k])
    ensures NoDup(FixedNames(b.fixed))
  {
    var ps := b.parameters;
    NamesSplit(ps, k);
    NoDupTail(PhysicalNames(ps), FixedNames(b.fixed));
    NoDupTail(PhysicalNames(ps[..k]), ps[k].physical + PhysicalNames(ps[k + 1..]));
    NoDupTail(ps[k].physical, PhysicalNames(ps[k + 1..]));
    NoDupTail(LogicalNames(ps), EvidenceNames(b.evidence));
    NoDupTail(LogicalNames(ps[..k]), ps[k].logical + LogicalNames(ps[k + 1..]));
    NoDupTail(ps[k].logical, LogicalNames(ps[k + 1..]));
  }

  // One parameter's values before the final freeze.
  ghost predicate Placed(num: Reader, p: Parameter, params: Params, physical: Params) {
    && ParameterForward(num, p, params)
    && var out := Forward(num, p.transform, ValuesAt(params, p.logical)).value;
       |out| == |p.physical|
       && forall i :: 0 <= i < |out| ==> p.physical[i] in physical && physical[p.physical[i]] == out[i]
  }

  lemma {:induction false} ForwardArity(num: Reader, p: Parameter, values: seq<Value>)
    requires ParameterShaped(p) && |values| == |p.logical| && Forward(num, p.transform, values).Some?
    ensures |Forward(num, p.transform, values).value| == |p.physical|
  {
    if p.transform.Lookup? {
      FirstCaseFound(num, p.transform.cases, values, true);
      var k := FirstCase(num, p.transform.cases, values, true).value;
      assert p.transform.cases[k] in p.transform.cases;
    }
  }

  method PlaceOne(num: Reader, item: Parameter, params: Params, physical: Params) returns (r: Option<Params>)
    requires ParameterShaped(item) && Covers(params, item.logical)
    ensures r.Some? <==> ParameterForward(num, item, params)
    ensures r.Some? ==> Placed(num, item, params, r.value) && r.value.Keys == physical.Keys + set n | n in item.physical
    ensures r.Some? ==> forall n :: n in physical && n !in item.physical ==> r.value[n] == physical[n]
  {
    var values := ValuesAt(params, item.logical);
    var transformed := Forward(num, item.transform, values);
    if transformed.None? { return None; }
    ForwardArity(num, item, values);
    var updated := UpdateZip(physical, item.physical, transformed.value);
    r := Some(updated);
  }

  lemma {:induction false} KeysGrow(a: seq<string>, b: seq<string>)
    ensures (set n | n in a + b) == (set n | n in a) + (set n | n in b)
  {}

  lemma {:induction false} AllPlacedStay(num: Reader, ps: seq<Parameter>, params: Params, before: Params,
          after: Params, added: seq<string>)
    requires forall p :: p in ps ==> Placed(num, p, params, before)
    requires forall n :: n in added ==> n !in PhysicalNames(ps)
    requires forall n :: n in before && n !in added ==> n in after && after[n] == before[n]
    ensures forall p :: p in ps ==> Placed(num, p, params, after)
  {
    forall p | p in ps ensures Placed(num, p, params, after) { NamesInside(ps, p); }
  }

  // The fixed values and the first k parameters are in place.
  ghost predicate Placing(num: Reader, b: Binding, params: Params, start: Params, physical: Params, k: nat)
    requires k <= |b.parameters|
  {
    physical.Keys == start.Keys + (set n | n in PhysicalNames(b.parameters[..k]))
    && (forall p :: p in b.parameters[..k] ==> Placed(num, p, params, physical))
    && forall n :: n in start ==> n in physical && physical[n] == start[n]
  }

  lemma {:induction false} PrefixGrows(ps: seq<Parameter>, k: nat)
    requires k < |ps|
    ensures forall p :: p in ps[..k + 1] <==> p in ps[..k] || p == ps[k]
  {
    assert ps[..k + 1] == ps[..k] + [ps[k]];
  }

  lemma {:induction false} FixedStay(b: Binding, start: Params, before: Params, after: Params, added: seq<string>)
    requires start.Keys == set n | n in FixedNames(b.fixed)
    requires forall n :: n in added ==> n !in FixedNames(b.fixed)
    requires forall n :: n in start ==> n in before && before[n] == start[n]
    requires forall n :: n in before && n !in added ==> n in after && after[n] == before[n]
    ensures forall n :: n in start ==> n in after && after[n] == start[n]
  {}

  lemma {:induction false} PlacingTurn(num: Reader, b: Binding, params: Params, start: Params, physical: Params,
          next: Params, k: nat)
    requires BindingShaped(b) && k < |b.parameters| && Placing(num, b, params, start, physical, k)
    requires start.Keys == set n | n in FixedNames(b.fixed)
    requires Placed(num, b.parameters[k], params, next)
    requires next.Keys == physical.Keys + set n | n in b.parameters[k].physical
    requires forall n :: n in physical && n !in b.parameters[k].physical ==> next[n] == physical[n]
    ensures Placing(num, b, params, start, next, k + 1)
  {
    var ps, item := b.parameters, b.parameters[k];
    FreshNames(b, k);
    NamesStep(ps, k);
    KeysGrow(PhysicalNames(ps[..k]), item.physical);
    PlacedGrow(num, ps, k, params, physical, next);
    FixedStay(b, start, physical, next, item.physical);
  }

  lemma {:induction false} PlacedGrow(num: Reader, ps: seq<Parameter>, k: nat, params: Params, physical: Params,
          next: Params)
    requires k < |ps| && Placed(num, ps[k], params, next)
    requires forall p :: p in ps[..k] ==> Placed(num, p, params, physical)
    requires forall n :: n in ps[k].physical ==> n !in PhysicalNames(ps[..k])
    requires forall n :: n in physical && n !in ps[k].physical ==> n in next && next[n] == physical[n]
    ensures forall p :: p in ps[..k + 1] ==> Placed(num, p, params, next)
  {
    AllPlacedStay(num, ps[..k], params, physical, next, ps[k].physical);
    PrefixGrows(ps, k);
  }

  // Places the parameters one after another over the fixed values.
  method PlaceParameters(num: Reader, b: Binding, params: Params, start: Params) returns (r: Option<Params>)
    requires BindingShaped(b) && params.Keys == LogicalSet(b)
    requires start.Keys == set n | n in FixedNames(b.fixed)
    ensures r.Some? <==> forall p :: p in b.parameters ==> ParameterForward(num, p, params)
    ensures r.Some? ==> r.value.Keys == PhysicalSet(b)
    ensures r.Some? ==> forall p :: p in b.parameters ==> Placed(num, p, params, r.value)
    ensures r.Some? ==> forall n :: n in start ==> n in r.value && r.value[n] == start[n]
  {
    var ps, physical := b.parameters, start;
    for k := 0 to |ps|
      invariant Placing(num, b, params, start, physical, k)
    {
      NamesInside(ps, ps[k]);
      FreshNames(b, k);
      var placed := PlaceOne(num, ps[k], params, physical);
      if placed.None? { return None; }
      PlacingTurn(num, b, params, start, physical, placed.value, k);
      physical := placed.value;
    }
    assert ps[..|ps|] == ps;
    r := Some(physical);
  }

  method CheckEvidence(num: Reader, b: Binding, params: Params) returns (r: Option<Params>)
    requires params.Keys == LogicalSet(b)
    ensures r.Some? <==> forall e :: e in b.evidence ==> e.logical in params && EvidenceValid(num, e, params[e.logical])
    ensures r.Some? ==> r.value == map n | n in EvidenceNames(b.evidence) && n in params :: Freeze(params[n])
  {
    var es := b.evidence;
    var evidence: Params := map[];
    for k := 0 to |es|
      invariant forall e :: e in es[..k] ==> e.logical in params && EvidenceValid(num, e, params[e.logical])
      invariant evidence == map n | n in EvidenceNames(es)[..k] && n in params :: Freeze(params[n])
    {
      assert EvidenceNames(es)[k] == es[k].logical;
      assert es[..k + 1] == es[..k] + [es[k]] && EvidenceNames(es)[..k + 1] == EvidenceNames(es)[..k] + [es[k].logical];
      var value := params[es[k].logical];
      if !EvidenceValid(num, es[k], value) {
        assert es[k] in es;
        return None;
      }
      evidence := evidence[es[k].logical := Freeze(value)];
    }
    assert es[..|es|] == es && EvidenceNames(es)[..|es|] == EvidenceNames(es);
    r := Some(evidence);
  }

  method FixedStart(b: Binding) returns (physical: Params)
    requires NoDup(FixedNames(b.fixed))
    ensures physical.Keys == set n | n in FixedNames(b.fixed)
    ensures forall f :: f in b.fixed ==> f.physical in physical && physical[f.physical] == f.value
  {
    var fs := b.fixed;
    physical := map[];
    for k := 0 to |fs|
      invariant physical.Keys == set n | n in FixedNames(fs)[..k]
      invariant forall j :: 0 <= j < k ==> fs[j].physical in physical && physical[fs[j].physical] == fs[j].value
    {
      assert FixedNames(fs)[..k + 1] == FixedNames(fs)[..k] + [fs[k].physical];
      forall j | 0 <= j < k ensures fs[j].physical != fs[k].physical {
        assert FixedNames(fs)[j] != FixedNames(fs)[k];
      }
      physical := physical[fs[k].physical := fs[k].value];
    }
    assert FixedNames(fs)[..|fs|] == FixedNames(fs);
  }

  // resolve_component: refuses exactly the requests that are not resolvable,
  // and never overwrites a fixed value.
  method ResolveComponent(num: Reader, b: Binding, params: Params) returns (r: Option<Resolved>)
    requires BindingShaped(b)
    ensures r.Some? <==> Resolvable(num, b, params)
    ensures r.Some? ==> Resolution(num, b, params, r.value)
  {
    var expected := (set n | n in LogicalNames(b.parameters)) + (set n | n in EvidenceNames(b.evidence));
    if params.Keys != expected { return None; }
    NoDupTail(PhysicalNames(b.parameters), FixedNames(b.fixed));
    var start := FixedStart(b);
    var placed := PlaceParameters(num, b, params, start);
    if placed.None? { return None; }
    var evidence := CheckEvidence(num, b, params);
    if evidence.None? { return None; }
    var physical := map n | n in placed.value :: Freeze(placed.value[n]);
    forall p | p in b.parameters ensures Written(num, p, params, physical) {
      assert Placed(num, p, params, placed.value);
    }
    r := Some(Resolved(physical, evidence.value));
  }

  lemma {:induction false} AllReadStay(num: Reader, ps: seq<Parameter>, observed: Params, before: Params,
          after: Params, added: seq<string>)
    requires forall p :: p in ps ==> Read(num, p, observed, before)
    requires forall n :: n in added ==> n !in LogicalNames(ps)
    requires forall n :: n in before && n !in added ==> n in after && after[n] == before[n]
    ensures forall p :: p in ps ==> Read(num, p, observed, after)
  {
    forall p | p in ps ensures Read(num, p, observed, after) { NamesInside(ps, p); }
  }

  lemma {:induction false} ReverseArity(num: Reader, p: Parameter, values: seq<Value>)
    requires ParameterShaped(p) && |values| == |p.physical| && Reverse(num, p.transform, values).Some?
    ensures |Reverse(num, p.transform, values).value| == |p.logical|
  {
    if p.transform.Lookup? {
      FirstCaseFound(num, p.transform.cases, values, false);
      var k := FirstCase(num, p.transform.cases, values, false).value;
      assert p.transform.cases[k] in p.transform.cases;
    }
  }

  method ReverseOne(num: Reader, item: Parameter, observed: Params) returns (r: Option<seq<Value>>)
    requires ParameterShaped(item)
    ensures r.Some? <==> ParameterReverse(num, item, observed)
    ensures r.Some? ==> r == Reverse(num, item.transform, ValuesAt(observed, item.physical))
    ensures r.Some? ==> |r.value| == |item.logical|
  {
    if exists n :: n in item.physical && n !in observed { return None; }
    var values := ValuesAt(observed, item.physical);
    r := Reverse(num, item.transform, values);
    if r.Some? { ReverseArity(num, item, values); }
  }

  // One parameter's values, read back into what has been collected.
  method ReadOne(num: Reader, item: Parameter, observed: Params, collected: Params) returns (r: Option<Params>)
    requires ParameterShaped(item)
    ensures r.Some? <==> ParameterReverse(num, item, observed)
    ensures r.Some? ==> Read(num, item, observed, r.value) && r.value.Keys == collected.Keys + set n | n in item.logical
    ensures r.Some? ==> forall n :: n in collected && n !in item.logical ==> r.value[n] == collected[n]
  {
    var back := ReverseOne(num, item, observed);
    if back.None? { return None; }
    var merged := UpdateZip(collected, item.logical, back.value);
    r := Some(merged);
  }

  // The evidence and the first k parameters have been read back.
  ghost predicate Collecting(num: Reader, b: Binding, evidence: Params, observed: Params, result: Params, k: nat)
    requires k <= |b.parameters|
  {
    result.Keys == (set n | n in LogicalNames(b.parameters[..k])) + evidence.Keys
    && (forall p :: p in b.parameters[..k] ==> Read(num, p, observed, result))
    && forall n :: n in evidence && n !in LogicalNames(b.parameters[..k]) ==> n in result && result[n] == evidence[n]
  }

  lemma {:induction false} CollectingTurn(num: Reader, b: Binding, evidence: Params, observed: Params, result: Params,
          next: Params, k: nat)
    requires BindingShaped(b) && k < |b.parameters| && Collecting(num, b, evidence, observed, result, k)
    requires Read(num, b.parameters[k], observed, next)
    requires next.Keys == result.Keys + set n | n in b.parameters[k].logical
    requires forall n :: n in result && n !in b.parameters[k].logical ==> next[n] == result[n]
    ensures Collecting(num, b, evidence, observed, next, k + 1)
  {
    var ps, item := b.parameters, b.parameters[k];
    FreshNames(b, k);
    NamesStep(ps, k);
    KeysGrow(LogicalNames(ps[..k]), item.logical);
    AllReadStay(num, ps[..k], observed, result, next, item.logical);
    PrefixGrows(ps, k);
  }

  // logical_parameters: None is MASTER_READBACK_FAILED.
  method LogicalParameters(num: Reader, b: Binding, evidence: Params, observed: Params) returns (r: Option<Params>)
    requires BindingShaped(b)
    ensures r.Some? <==> forall p :: p in b.parameters ==> ParameterReverse(num, p, observed)
    ensures r.Some? ==> ReadBack(num, b, evidence, observed, r.value)
  {
    var ps, result := b.parameters, evidence;
    for k := 0 to |ps|
      invariant Collecting(num, b, evidence, observed, result, k)
    {
      assert ParameterShaped(ps[k]) by { assert ps[k] in ps; }
      var merged := ReadOne(num, ps[k], observed, result);
      if merged.None? { return None; }
      CollectingTurn(num, b, evidence, observed, result, merged.value, k);
      result := merged.value;
    }
    assert ps[..|ps|] == ps;
    r := Some(result);
  }

  // The two together, for any registry entry.
  method ResolveAndReadBack(num: Reader, raw: RawBinding, params: Params)
    returns (resolved: Option<Resolved>, out: Option<Params>)
    ensures resolved.Some? <==> Entry(num, raw) && Requested(num, raw, params)
    ensures resolved.Some? ==> Resolves(num, raw, params, resolved.value)
    ensures (forall r :: r in raw.parameters ==> !Confusable(num, r.transform)) ==>
              (out.Some? <==> resolved.Some?)
              && (out.Some? ==>
                    out.value.Keys == params.Keys
                    && forall n :: n in params ==>
                      (Agrees(num, params[n], out.value[n]) <==> !ListThrough(raw, n, params[n])))
  {
    var parsed := ParseBinding(num, raw);
    out := None;
    ParsedEntry(num, raw);
    if parsed.None? { return None, None; }
    ParsedShaped(num, raw);
    ParsedBinding(num, raw);
    var b := parsed.value;
    RequestedIsResolvable(num, raw, params);
    resolved := ResolveComponent(num, b, params);
    if resolved.None? { return; }
    ResolutionMeans(num, raw, params, resolved.value);
    out := LogicalParameters(num, b, resolved.value.evidence, resolved.value.physical);
    if BindingOk(num, b) {
      ReadBackPossible(num, b, params, resolved.value);
      RoundTrip(num, b, params, resolved.value, out.value);
      forall n | n in params ensures Altered(b, n, params[n]) <==> ListThrough(raw, n, params[n]) {
        AlteredIsList(num, raw, n, params[n]);
      }
      forall n | n in params ensures Same(num, params[n], out.value[n]) <==> Agrees(num, params[n], out.value[n]) {
        SameAgrees(num, params[n], out.value[n]);
      }
    }
  }
}
