// resolve_component and logical_parameters, and the round trip between them.
module BindingRoundTrip {
  import opened Options
  import opened PyText
  import opened MasterBindings

  type Params = map<string, Value>

  datatype Resolved = Resolved(physical: Params, evidence: Params)

  function ValuesAt(m: Params, names: seq<string>): (r: seq<Value>)
    requires forall n :: n in names ==> n in m
    ensures |r| == |names|
  {
    seq(|names|, i requires 0 <= i < |names| => assert names[i] in names; m[names[i]])
  }

  predicate Covers(m: Params, names: seq<string>) { forall n :: n in names ==> n in m }

  ghost function LogicalSet(b: Binding): set<string> {
    (set n | n in LogicalNames(b.parameters)) + (set n | n in EvidenceNames(b.evidence))
  }

  ghost function PhysicalSet(b: Binding): set<string> {
    (set n | n in PhysicalNames(b.parameters)) + (set n | n in FixedNames(b.fixed))
  }

  lemma {:induction false} NamesInside(ps: seq<Parameter>, p: Parameter)
    requires p in ps
    ensures forall n :: n in p.logical ==> n in LogicalNames(ps)
    ensures forall n :: n in p.physical ==> n in PhysicalNames(ps)
  {
    if p != ps[0] { NamesInside(ps[1..], p); }
  }

  lemma {:induction false} NameOwner(ps: seq<Parameter>, n: string, logical: bool) returns (k: nat, i: nat)
    requires if logical then n in LogicalNames(ps) else n in PhysicalNames(ps)
    ensures k < |ps|
    ensures if logical then i < |ps[k].logical| && ps[k].logical[i] == n
            else i < |ps[k].physical| && ps[k].physical[i] == n
  {
    var first := if logical then ps[0].logical else ps[0].physical;
    if n in first {
      k := 0;
      i :| 0 <= i < |first| && first[i] == n;
    } else {
      k, i := NameOwner(ps[1..], n, logical);
      k := k + 1;
    }
  }

  ghost predicate ParameterForward(num: Reader, p: Parameter, params: Params) {
    (!p.transform.Lookup? ==> |p.logical| == 1) && Covers(params, p.logical)
    && Forward(num, p.transform, ValuesAt(params, p.logical)).Some?
  }

  // The parameters a caller may pass: exactly the logical names, each value convertible.
  ghost predicate Resolvable(num: Reader, b: Binding, params: Params) {
    && params.Keys == LogicalSet(b)
    && (forall p :: p in b.parameters ==> ParameterForward(num, p, params))
    && (forall e :: e in b.evidence ==> e.logical in params && EvidenceValid(num, e, params[e.logical]))
  }

  // The physical values of one parameter.
  ghost predicate Written(num: Reader, p: Parameter, params: Params, physical: Params) {
    && ParameterForward(num, p, params)
    && var out := Forward(num, p.transform, ValuesAt(params, p.logical)).value;
       |out| == |p.physical|
       && forall i :: 0 <= i < |out| ==> p.physical[i] in physical && physical[p.physical[i]] == Freeze(out[i])
  }

  ghost predicate Resolution(num: Reader, b: Binding, params: Params, r: Resolved) {
    && Resolvable(num, b, params)
    && r.physical.Keys == PhysicalSet(b)
    && (forall p :: p in b.parameters ==> Written(num, p, params, r.physical))
    && (forall f :: f in b.fixed ==> f.physical in r.physical && r.physical[f.physical] == f.value)
    && r.evidence == map n | n in EvidenceNames(b.evidence) && n in params :: Freeze(params[n])
  }

  ghost predicate ParameterReverse(num: Reader, p: Parameter, observed: Params) {
    (!p.transform.Lookup? ==> |p.physical| == 1) && Covers(observed, p.physical)
    && Reverse(num, p.transform, ValuesAt(observed, p.physical)).Some?
  }

  ghost predicate Read(num: Reader, p: Parameter, observed: Params, out: Params) {
    && ParameterReverse(num, p, observed)
    && var back := Reverse(num, p.transform, ValuesAt(observed, p.physical)).value;
       |back| == |p.logical| && forall i :: 0 <= i < |back| ==> p.logical[i] in out && out[p.logical[i]] == back[i]
  }

  ghost predicate ReadBack(num: Reader, b: Binding, evidence: Params, observed: Params, out: Params) {
    && (forall p :: p in b.parameters ==> Read(num, p, observed, out))
    && out.Keys == (set n | n in LogicalNames(b.parameters)) + evidence.Keys
    && (forall n :: n in evidence && n !in LogicalNames(b.parameters) ==> out[n] == evidence[n])
  }

  // ---- the round trip of one parameter ----

  lemma {:induction false} EqSymmetric(x: Value, y: Value)
    requires PyEq(x, y)
    ensures PyEq(y, x)
    decreases x
  {
    if (x.List? && y.List?) || (x.Tuple? && y.Tuple?) {
      forall i | 0 <= i < |x.items| ensures PyEq(y.items[i], x.items[i]) { EqSymmetric(x.items[i], y.items[i]); }
    }
  }

  lemma {:induction false} EqReflexive(x: Value)
    ensures PyEq(x, x)
    decreases x
  {
    if x.List? || x.Tuple? {
      forall i | 0 <= i < |x.items| ensures PyEq(x.items[i], x.items[i]) { EqReflexive(x.items[i]); }
    }
  }

  // Freezing a value leaves it recognisable exactly when it holds no list.
  lemma {:induction false} FrozenSame(num: Reader, v: Value)
    ensures Same(num, v, Freeze(v)) <==> NoLists(v)
    ensures PyEq(v, Freeze(v)) <==> NoLists(v)
    decreases v
  {
    if v.Tuple? {
      var f := Freeze(v).items;
      forall i | 0 <= i < |v.items|
        ensures f[i] == Freeze(v.items[i]) && (PyEq(v.items[i], f[i]) <==> NoLists(v.items[i])) {
        FrozenSame(num, v.items[i]);
      }
      forall x | x in v.items ensures exists i :: 0 <= i < |v.items| && v.items[i] == x {}
    }
  }

  predicate IdentityBound(p: Parameter, v: Value) { p.transform.Identity? && !NoLists(v) }

  lemma {:induction false} ScaledSame(num: Reader, v: Value, f: real, g: real)
    requires Scaled(num, v, f).Some? && f * g == 1.0
    ensures Scaled(num, Scaled(num, v, f).value[0], g).Some?
    ensures Same(num, v, Scaled(num, Scaled(num, v, f).value[0], g).value[0])
  {
    var x := Numeric(num, v).value;
    var y := x * f;
    assert Scaled(num, v, f).value[0] == Num(y);
    assert y * g == x by {
      assert y * g == x * (f * g);
    }
    assert Scaled(num, Num(y), g).value[0] == Num(x);
    assert Numeric(num, Num(x)) == Some(x);
  }

  lemma {:induction false} InverseFactor(f: real)
    requires f != 0.0
    ensures f * (1.0 / f) == 1.0 && (1.0 / f) * f == 1.0
  {}

  // Reversing the frozen physical values recovers the logical ones, except
  // that an identity-bound value holding a list comes back as a tuple.
  lemma {:induction false} ParameterRoundTrip(num: Reader, p: Parameter, values: seq<Value>)
    requires ParameterOk(num, p) && |values| == |p.logical|
    requires Forward(num, p.transform, values).Some?
    ensures var out := Forward(num, p.transform, values).value;
      |out| == |p.physical|
      && Reverse(num, p.transform, FreezeAll(out)).Some?
      && var back := Reverse(num, p.transform, FreezeAll(out)).value;
         |back| == |values|
         && forall i :: 0 <= i < |values| ==> (Same(num, values[i], back[i]) <==> !IdentityBound(p, values[i]))
  {
    var t := p.transform;
    var out := Forward(num, t, values).value;
    match t {
      case Identity => FrozenSame(num, values[0]);
      case Scale(f) => InverseFactor(f); ScaledSame(num, values[0], f, 1.0 / f);
      case Ratio(f) => InverseFactor(f); ScaledSame(num, values[0], f, 1.0 / f);
      case Harmonic(f) => InverseFactor(f); ScaledSame(num, values[0], 1.0 / f, f);
      case Lookup(cases) => LookupRoundTrip(num, p, values);
      case EvidenceOnly =>
    }
  }

  // Both first-match scans stop at the same case, because no two cases agree
  // on their physical side.
  lemma {:induction false} LookupRoundTrip(num: Reader, p: Parameter, values: seq<Value>)
    requires ParameterOk(num, p) && |values| == |p.logical| && p.transform.Lookup?
    requires Forward(num, p.transform, values).Some?
    ensures var out := Forward(num, p.transform, values).value;
      |out| == |p.physical| && FreezeAll(out) == out
      && Reverse(num, p.transform, out).Some?
      && var back := Reverse(num, p.transform, out).value;
         |back| == |values| && forall i :: 0 <= i < |values| ==> Same(num, values[i], back[i])
  {
    var cases := p.transform.cases;
    FirstCaseFound(num, cases, values, true);
    var k := FirstCase(num, cases, values, true).value;
    assert cases[k] in cases;
    PhysicalScan(num, cases, k);
    SameBack(num, cases[k].logical, values);
  }

  lemma {:induction false} PhysicalScan(num: Reader, cases: seq<Case>, k: nat)
    requires TransformOk(num, Lookup(cases)) && k < |cases|
    ensures FirstCase(num, cases, cases[k].physical, false) == Some(k)
  {
    var out := cases[k].physical;
    FirstCaseFound(num, cases, out, false);
    forall i | 0 <= i < |out| ensures Same(num, out[i], out[i]) { EqReflexive(out[i]); }
    assert ZipSame(num, cases[k].physical, out);
  }

  lemma {:induction false} SameBack(num: Reader, xs: seq<Value>, ys: seq<Value>)
    requires |xs| == |ys| && ZipSame(num, xs, ys)
    ensures forall i :: 0 <= i < |ys| ==> Same(num, ys[i], xs[i])
  {
    forall i | 0 <= i < |ys| ensures Same(num, ys[i], xs[i]) {
      assert Same(num, xs[i], ys[i]);
      if PyEq(xs[i], ys[i]) { EqSymmetric(xs[i], ys[i]); }
    }
  }

  // ---- the round trip of a component ----

  lemma {:induction false} WrittenReads(num: Reader, p: Parameter, params: Params, physical: Params)
    requires ParameterOk(num, p) && Written(num, p, params, physical)
    ensures ParameterReverse(num, p, physical)
    ensures var back := Reverse(num, p.transform, ValuesAt(physical, p.physical)).value;
      |back| == |p.logical|
      && forall i :: 0 <= i < |back| ==>
           (Same(num, params[p.logical[i]], back[i]) <==> !IdentityBound(p, params[p.logical[i]]))
  {
    var values := ValuesAt(params, p.logical);
    ParameterRoundTrip(num, p, values);
    var out := Forward(num, p.transform, values).value;
    forall n | n in p.physical ensures n in physical {
      var i :| 0 <= i < |p.physical| && p.physical[i] == n;
      assert p.physical[i] in physical;
    }
    assert ValuesAt(physical, p.physical) == FreezeAll(out);
  }

  // The one way a value is altered: an identity transform of a value holding a list.
  ghost predicate Altered(b: Binding, n: string, v: Value) {
    exists p :: p in b.parameters && n in p.logical && IdentityBound(p, v)
  }

  lemma {:induction false} NameRoundTrip(num: Reader, b: Binding, params: Params, r: Resolved, out: Params, n: string)
    requires BindingOk(num, b) && Resolution(num, b, params, r) && ReadBack(num, b, r.evidence, r.physical, out)
    requires n in params && n in LogicalNames(b.parameters)
    ensures n in out && (Same(num, params[n], out[n]) <==> !Altered(b, n, params[n]))
  {
    var k, i := NameOwner(b.parameters, n, true);
    var p := b.parameters[k];
    assert ParameterOk(num, p) && Written(num, p, params, r.physical) && Read(num, p, r.physical, out);
    WrittenReads(num, p, params, r.physical);
    NoDupTail(LogicalNames(b.parameters), EvidenceNames(b.evidence));
    forall q | q in b.parameters && n in q.logical ensures q == p { OneOwner(b.parameters, p, q, n); }
  }

  // Reading back the physical map of an accepted request yields exactly the
  // requested keys, each with the requested value up to _same_transform_value,
  // save for identity-bound values holding a list.
  lemma {:induction false} RoundTrip(num: Reader, b: Binding, params: Params, r: Resolved, out: Params)
    requires BindingOk(num, b) && Resolution(num, b, params, r) && ReadBack(num, b, r.evidence, r.physical, out)
    ensures out.Keys == params.Keys
    ensures forall n :: n in params ==> n in out && (Same(num, params[n], out[n]) <==> !Altered(b, n, params[n]))
  {
    forall n | n in params ensures n in out && (Same(num, params[n], out[n]) <==> !Altered(b, n, params[n])) {
      if n in LogicalNames(b.parameters) {
        NameRoundTrip(num, b, params, r, out, n);
      } else {
        EvidenceSame(num, b, params, r, n);
        forall q | q in b.parameters && n in q.logical ensures false { NamesInside(b.parameters, q); }
      }
    }
  }

  // And that read-back never fails: every parameter reverses.
  lemma {:induction false} ReadBackPossible(num: Reader, b: Binding, params: Params, r: Resolved)
    requires BindingOk(num, b) && Resolution(num, b, params, r)
    ensures forall p :: p in b.parameters ==> ParameterReverse(num, p, r.physical)
  {
    forall p | p in b.parameters ensures ParameterReverse(num, p, r.physical) {
      assert ParameterOk(num, p) && Written(num, p, params, r.physical);
      WrittenReads(num, p, params, r.physical);
    }
  }

  lemma {:induction false} EvidenceSame(num: Reader, b: Binding, params: Params, r: Resolved, n: string)
    requires Resolution(num, b, params, r) && n in params && n !in LogicalNames(b.parameters)
    ensures n in r.evidence && Same(num, params[n], r.evidence[n])
  {
    var i :| 0 <= i < |b.evidence| && EvidenceNames(b.evidence)[i] == n;
    assert EvidenceValid(num, b.evidence[i], params[n]);
    FrozenSame(num, params[n]);
  }

  lemma {:induction false} OneOwner(ps: seq<Parameter>, p: Parameter, q: Parameter, n: string)
    requires p in ps && q in ps && n in p.logical && n in q.logical && NoDup(LogicalNames(ps))
    ensures p == q
  {
    NoDupTail(ps[0].logical, LogicalNames(ps[1..]));
    forall r | r in ps[1..] ensures n in r.logical ==> n in LogicalNames(ps[1..]) { NamesInside(ps[1..], r); }
    if p in ps[1..] && q in ps[1..] { OneOwner(ps[1..], p, q, n); }
  }

  lemma {:induction false} NoDupTail(a: seq<string>, b: seq<string>)
    requires NoDup(a + b)
    ensures NoDup(a) && NoDup(b)
    ensures forall n :: n in a ==> n !in b
  {
    forall i, j | 0 <= i < j < |b| ensures b[i] != b[j] {
      assert (a + b)[|a| + i] == b[i] && (a + b)[|a| + j] == b[j];
    }
    forall i, j | 0 <= i < j < |a| ensures a[i] != a[j] {
      assert (a + b)[i] == a[i] && (a + b)[j] == a[j];
    }
    forall i, j | 0 <= i < |a| && 0 <= j < |b| ensures a[i] != b[j] {
      assert (a + b)[i] == a[i] && (a + b)[|a| + j] == b[j];
    }
  }

  lemma {:induction false} EqTransitive(x: Value, y: Value, z: Value)
    requires PyEq(x, y) && PyEq(y, z)
    ensures PyEq(x, z)
    decreases x
  {
    if x.List? || x.Tuple? {
      forall i | 0 <= i < |x.items| ensures PyEq(x.items[i], z.items[i]) {
        EqTransitive(x.items[i], y.items[i], z.items[i]);
      }
    }
  }

  // _same_transform_value carries over a middle value exactly when the outer
  // two are not a boolean and a text: a boolean equals a number, which may
  // equal a text, but it is never itself numeric.
  lemma {:induction false} SameIsTransitiveUnless(num: Reader, x: Value, y: Value, z: Value)
    requires Same(num, x, y) && Same(num, y, z)
    ensures Same(num, x, z) <==> !((x.Bool? && z.Text?) || (x.Text? && z.Bool?))
  {
    if PyEq(x, y) && PyEq(y, z) { EqTransitive(x, y, z); }
  }

  // And such a middle value occurs: True equals 1, and 1 equals "1".
  lemma {:induction false} SameIsNotTransitive(num: Reader)
    requires num("1") == Some(1.0)
    ensures exists x, y, z :: Same(num, x, y) && Same(num, y, z) && !Same(num, x, z)
  {
    var x, y, z := Bool(true), Num(1.0), Text("1");
    assert Strip(BeforeBracket(Strip("1"))) == "1" by {
      assert !IsSpace('1');
      assert LStrip("1") == "1" && RStrip("1") == "1";
      assert BeforeBracket("1") == ['1'] + BeforeBracket("1"[1..]);
    }
    assert Same(num, x, y) && Same(num, y, z) && !Same(num, x, z);
  }
}
