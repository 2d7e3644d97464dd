// Logical-to-physical Master parameters: registry parsing, resolve_component
// and the read-back in logical_parameters.
module MasterBindings {
  import opened Options
  import opened PyText

  // A parameter value.  List is Python's list, Tuple its tuple.
  datatype Value =
    | Null
    | Bool(b: bool)
    | Num(r: real)
    | Text(s: string)
    | List(items: seq<Value>)
    | Tuple(items: seq<Value>)

  // Python's ==, under which True is 1 and a list never equals a tuple.
  predicate PyEq(x: Value, y: Value)
    decreases x
  {
    match (x, y)
    case (Bool(a), Num(r)) => (if a then 1.0 else 0.0) == r
    case (Num(r), Bool(a)) => (if a then 1.0 else 0.0) == r
    case (List(xs), List(ys)) => |xs| == |ys| && forall i :: 0 <= i < |xs| ==> PyEq(xs[i], ys[i])
    case (Tuple(xs), Tuple(ys)) => |xs| == |ys| && forall i :: 0 <= i < |xs| ==> PyEq(xs[i], ys[i])
    case _ => x == y
  }

  // _freeze: every list becomes a tuple.
  function Freeze(v: Value): Value {
    match v
    case List(items) => Tuple(seq(|items|, i requires 0 <= i < |items| => Freeze(items[i])))
    case Tuple(items) => Tuple(seq(|items|, i requires 0 <= i < |items| => Freeze(items[i])))
    case _ => v
  }

  predicate NoLists(v: Value) {
    match v
    case List(_) => false
    case Tuple(items) => forall x :: x in items ==> NoLists(x)
    case _ => true
  }

  // A value as JSON decodes it.
  predicate IsJson(v: Value) {
    match v
    case List(items) => forall x :: x in items ==> IsJson(x)
    case Tuple(_) => false
    case _ => true
  }

  // float() on text; the reader is a parameter of the model.
  type Reader = string -> Option<real>

  function BeforeBracket(s: string): string {
    if s == "" || s[0] == '[' then "" else [s[0]] + BeforeBracket(s[1..])
  }

  // _numeric, None standing for its TypeError and ValueError.
  function Numeric(num: Reader, v: Value): Option<real> {
    match v
    case Num(r) => Some(r)
    case Text(s) => num(Strip(BeforeBracket(Strip(s))))
    case _ => None
  }

  // _same_transform_value
  predicate Same(num: Reader, x: Value, y: Value) {
    PyEq(x, y) || (Numeric(num, x).Some? && Numeric(num, x) == Numeric(num, y))
  }

  predicate ZipSame(num: Reader, xs: seq<Value>, ys: seq<Value>) {
    forall i :: 0 <= i < |xs| && i < |ys| ==> Same(num, xs[i], ys[i])
  }

  function FreezeAll(vs: seq<Value>): (r: seq<Value>)
    ensures |r| == |vs|
  {
    seq(|vs|, i requires 0 <= i < |vs| => Freeze(vs[i]))
  }

  // ---- the parsed registry ----

  datatype Case = Case(logical: seq<Value>, physical: seq<Value>)

  datatype Transform =
    | Identity
    | Scale(factor: real)
    | Ratio(base: real)
    | Harmonic(hz: real)
    | Lookup(cases: seq<Case>)
    | EvidenceOnly

  datatype Parameter = Parameter(logical: seq<string>, physical: seq<string>, transform: Transform)
  datatype Fixed = Fixed(physical: string, value: Value)
  datatype Evidence = Evidence(logical: string, kind: string, minimum: Option<real>, maximum: Option<real>)
  datatype Binding = Binding(parameters: seq<Parameter>, fixed: seq<Fixed>, evidence: seq<Evidence>)

  function LogicalNames(ps: seq<Parameter>): seq<string> {
    if ps == [] then [] else ps[0].logical + LogicalNames(ps[1..])
  }

  function PhysicalNames(ps: seq<Parameter>): seq<string> {
    if ps == [] then [] else ps[0].physical + PhysicalNames(ps[1..])
  }

  function FixedNames(fs: seq<Fixed>): (r: seq<string>)
    ensures |r| == |fs|
  {
    seq(|fs|, i requires 0 <= i < |fs| => fs[i].physical)
  }

  function EvidenceNames(es: seq<Evidence>): (r: seq<string>)
    ensures |r| == |es|
  {
    seq(|es|, i requires 0 <= i < |es| => es[i].logical)
  }

  predicate NoDup(s: seq<string>) { forall i, j :: 0 <= i < j < |s| ==> s[i] != s[j] }

  // ---- parsing ----

  // A transform record: the fields present, whatever the kind.
  datatype RawTransform = RawTransform(
    kind: string,
    factor: Option<Value>,
    base: Option<Value>,
    hz: Option<Value>,
    cases: Option<seq<Case>>)

  datatype RawParameter = RawParameter(logical: seq<string>, physical: seq<string>, transform: RawTransform)
  datatype RawBinding = RawBinding(parameters: seq<RawParameter>, fixed: seq<Fixed>, evidence: seq<Evidence>)

  // _number: booleans and text are not numeric here.
  function Number(v: Value): Option<real> { if v.Num? then Some(v.r) else None }

  predicate Ambiguous(num: Reader, cases: seq<Case>) {
    exists i, j :: 0 <= i < j < |cases|
      && (ZipSame(num, cases[i].logical, cases[j].logical) || ZipSame(num, cases[i].physical, cases[j].physical))
  }

  function FreezeCases(cases: seq<Case>): (r: seq<Case>)
    ensures |r| == |cases|
  {
    seq(|cases|, i requires 0 <= i < |cases| => Case(FreezeAll(cases[i].logical), FreezeAll(cases[i].physical)))
  }

  function ParseTransform(num: Reader, raw: RawTransform): Option<Transform> {
    match raw
    case RawTransform("identity", None, None, None, None) => Some(Identity)
    case RawTransform("evidence_only", None, None, None, None) => Some(EvidenceOnly)
    case RawTransform("scale", Some(v), None, None, None) =>
      var f := Number(v);
      if f.None? || f.value == 0.0 then None else Some(Scale(f.value))
    case RawTransform("ratio_from_fixed_base", None, Some(v), None, None) =>
      var f := Number(v);
      if f.None? || f.value <= 0.0 then None else Some(Ratio(f.value))
    case RawTransform("harmonic_order", None, None, Some(v), None) =>
      var f := Number(v);
      if f.None? || f.value <= 0.0 then None else Some(Harmonic(f.value))
    case RawTransform("lookup_bundle", None, None, None, Some(cases)) =>
      if cases == [] || Ambiguous(num, cases) then None else Some(Lookup(FreezeCases(cases)))
    case _ => None
  }

  // Stripped names, None if one is blank.
  function Names(raw: seq<string>): Option<seq<string>> {
    if exists i :: 0 <= i < |raw| && Strip(raw[i]) == "" then None
    else Some(seq(|raw|, i requires 0 <= i < |raw| => Strip(raw[i])))
  }

  predicate ArityOk(t: Transform, logical: nat, physical: nat) {
    match t
    case Lookup(cases) => forall c :: c in cases ==> |c.logical| == logical && |c.physical| == physical
    case _ => logical == 1 && physical == 1
  }

  function ParseParameter(num: Reader, raw: RawParameter): Option<Parameter> {
    var logical, physical := Names(raw.logical), Names(raw.physical);
    if logical.None? || physical.None? || logical.value == [] || physical.value == []
       || !NoDup(logical.value) || !NoDup(physical.value) then None
    else
      var t := ParseTransform(num, raw.transform);
      if t.None? || !ArityOk(t.value, |logical.value|, |physical.value|) then None
      else Some(Parameter(logical.value, physical.value, t.value))
  }

  function ParseParameters(num: Reader, raw: seq<RawParameter>): Option<seq<Parameter>> {
    if raw == [] then Some([])
    else
      var first, rest := ParseParameter(num, raw[0]), ParseParameters(num, raw[1..]);
      if first.None? || rest.None? then None else Some([first.value] + rest.value)
  }

  function ParseFixed(raw: seq<Fixed>): (r: seq<Fixed>)
    ensures |r| == |raw|
  {
    seq(|raw|, i requires 0 <= i < |raw| => Fixed(Strip(raw[i].physical), Freeze(raw[i].value)))
  }

  function ParseEvidence(raw: seq<Evidence>): (r: seq<Evidence>)
    ensures |r| == |raw|
  {
    seq(|raw|, i requires 0 <= i < |raw| => raw[i].(logical := Strip(raw[i].logical), kind := Strip(raw[i].kind)))
  }

  predicate BadEvidence(e: Evidence) { Strip(e.logical) == "" || Strip(e.kind) == "" || InvertedRange(e) }

  function ParseBinding(num: Reader, raw: RawBinding): Option<Binding> {
    var ps := ParseParameters(num, raw.parameters);
    if ps.None? || (exists f :: f in raw.fixed && Strip(f.physical) == "")
       || (exists e :: e in raw.evidence && BadEvidence(e)) then None
    else
      var fixed, evidence := ParseFixed(raw.fixed), ParseEvidence(raw.evidence);
      if !NoDup(LogicalNames(ps.value) + EvidenceNames(evidence))
         || !NoDup(PhysicalNames(ps.value) + FixedNames(fixed)) then None
      else Some(Binding(ps.value, fixed, evidence))
  }

  predicate InvertedRange(e: Evidence) { e.minimum.Some? && e.maximum.Some? && e.minimum.value > e.maximum.value }

  // ---- transforms ----

  function FirstCase(num: Reader, cases: seq<Case>, values: seq<Value>, byLogical: bool): Option<nat> {
    if cases == [] then None
    else if ZipSame(num, if byLogical then cases[0].logical else cases[0].physical, values) then Some(0)
    else
      var k := FirstCase(num, cases[1..], values, byLogical);
      if k.None? then None else Some(k.value + 1)
  }

  lemma {:induction false} FirstCaseFound(num: Reader, cases: seq<Case>, values: seq<Value>, byLogical: bool)
    ensures var k := FirstCase(num, cases, values, byLogical);
      if k.Some? then
        k.value < |cases|
        && ZipSame(num, if byLogical then cases[k.value].logical else cases[k.value].physical, values)
        && forall j :: 0 <= j < k.value ==>
             !ZipSame(num, if byLogical then cases[j].logical else cases[j].physical, values)
      else
        forall j :: 0 <= j < |cases| ==>
          !ZipSame(num, if byLogical then cases[j].logical else cases[j].physical, values)
  {
    if cases != [] {
      FirstCaseFound(num, cases[1..], values, byLogical);
      var k := FirstCase(num, cases, values, byLogical);
      forall j | 1 <= j < |cases| ensures cases[j] == cases[1..][j - 1] {}
    }
  }

  // _forward_transform; None is MASTER_TRANSFORM_UNSUPPORTED.
  function Forward(num: Reader, t: Transform, values: seq<Value>): Option<seq<Value>>
    requires !t.Lookup? ==> |values| == 1
  {
    match t
    case Identity => Some(values)
    case Scale(f) => Scaled(num, values[0], f)
    case Ratio(f) => Scaled(num, values[0], f)
    case Harmonic(f) => if f == 0.0 then None else Scaled(num, values[0], 1.0 / f)
    case Lookup(cases) =>
      FirstCaseFound(num, cases, values, true);
      var k := FirstCase(num, cases, values, true);
      if k.Some? then Some(cases[k.value].physical) else None
    case EvidenceOnly => None
  }

  // _reverse_transform; None is MASTER_READBACK_FAILED.
  function Reverse(num: Reader, t: Transform, values: seq<Value>): Option<seq<Value>>
    requires !t.Lookup? ==> |values| == 1
  {
    match t
    case Identity => Some(values)
    case Scale(f) => if f == 0.0 then None else Scaled(num, values[0], 1.0 / f)
    case Ratio(f) => if f == 0.0 then None else Scaled(num, values[0], 1.0 / f)
    case Harmonic(f) => Scaled(num, values[0], f)
    case Lookup(cases) =>
      FirstCaseFound(num, cases, values, false);
      var k := FirstCase(num, cases, values, false);
      if k.Some? then Some(cases[k.value].logical) else None
    case EvidenceOnly => None
  }

  function Scaled(num: Reader, v: Value, f: real): Option<seq<Value>> {
    var x := Numeric(num, v);
    if x.None? then None else Some([Num(x.value * f)])
  }

  predicate EvidenceValid(num: Reader, e: Evidence, v: Value) {
    if e.kind == "float" then
      var x := Numeric(num, v);
      x.Some? && (e.minimum.Some? ==> e.minimum.value <= x.value) && (e.maximum.Some? ==> x.value <= e.maximum.value)
    else e.kind == "string" && v.Text?
  }

  // ---- what a parsed binding guarantees ----

  ghost predicate TransformOk(num: Reader, t: Transform) {
    match t
    case Scale(f) => f != 0.0
    case Ratio(f) => f > 0.0
    case Harmonic(f) => f > 0.0
    case Lookup(cases) => forall i, j :: 0 <= i < j < |cases| ==> !ZipSame(num, cases[i].physical, cases[j].physical)
    case _ => true
  }

  ghost predicate ParameterShaped(p: Parameter) {
    && ArityOk(p.transform, |p.logical|, |p.physical|) && NoDup(p.logical) && NoDup(p.physical)
    && (p.transform.Lookup? ==> forall c :: c in p.transform.cases ==>
          FreezeAll(c.physical) == c.physical && FreezeAll(c.logical) == c.logical)
  }

  // What is needed to write the physical values, ...
  ghost predicate BindingShaped(b: Binding) {
    && (forall p :: p in b.parameters ==> ParameterShaped(p))
    && NoDup(LogicalNames(b.parameters) + EvidenceNames(b.evidence))
    && NoDup(PhysicalNames(b.parameters) + FixedNames(b.fixed))
    && (forall f :: f in b.fixed ==> Freeze(f.value) == f.value)
  }

  ghost predicate ParameterOk(num: Reader, p: Parameter) { ParameterShaped(p) && TransformOk(num, p.transform) }

  // ... and to read them back unambiguously.
  ghost predicate BindingOk(num: Reader, b: Binding) {
    BindingShaped(b) && forall p :: p in b.parameters ==> ParameterOk(num, p)
  }

  ghost predicate JsonTransform(raw: RawTransform) {
    raw.cases.Some? ==> forall c :: c in raw.cases.value ==>
      (forall v :: v in c.logical ==> IsJson(v)) && (forall v :: v in c.physical ==> IsJson(v))
  }

  lemma {:induction false} FreezeTwice(v: Value)
    ensures Freeze(Freeze(v)) == Freeze(v)
    decreases v
  {
    if v.List? || v.Tuple? {
      forall i | 0 <= i < |v.items| ensures Freeze(Freeze(v.items[i])) == Freeze(v.items[i]) {
        FreezeTwice(v.items[i]);
      }
    }
  }

  // Equality that does not tell a list from a tuple.
  predicate Alike(x: Value, y: Value)
    decreases x
  {
    if (x.List? || x.Tuple?) && (y.List? || y.Tuple?) then
      |x.items| == |y.items| && forall i :: 0 <= i < |x.items| ==> Alike(x.items[i], y.items[i])
    else PyEq(x, y)
  }

  predicate ZipAlike(num: Reader, xs: seq<Value>, ys: seq<Value>) {
    forall i :: 0 <= i < |xs| && i < |ys| ==> Same(num, xs[i], ys[i]) || Alike(xs[i], ys[i])
  }

  // Two cases agree on their physical side but for lists given as tuples.
  predicate Confusable(num: Reader, raw: RawTransform) {
    raw.cases.Some?
    && exists i, j :: 0 <= i < j < |raw.cases.value|
         && ZipAlike(num, raw.cases.value[i].physical, raw.cases.value[j].physical)
  }

  // Freezing makes equal exactly the values that are alike.
  lemma {:induction false} FreezeAlike(x: Value, y: Value)
    ensures PyEq(Freeze(x), Freeze(y)) <==> Alike(x, y)
    decreases x
  {
    if (x.List? || x.Tuple?) && (y.List? || y.Tuple?) && |x.items| == |y.items| {
      var fx, fy := Freeze(x).items, Freeze(y).items;
      assert forall i :: 0 <= i < |fx| ==> fx[i] == Freeze(x.items[i]) && fy[i] == Freeze(y.items[i]);
      forall i | 0 <= i < |x.items| ensures PyEq(fx[i], fy[i]) <==> Alike(x.items[i], y.items[i]) {
        FreezeAlike(x.items[i], y.items[i]);
      }
      assert PyEq(Freeze(x), Freeze(y)) <==> forall i :: 0 <= i < |fx| ==> PyEq(fx[i], fy[i]);
    }
  }

  lemma {:induction false} EqIsAlike(x: Value, y: Value)
    requires PyEq(x, y)
    ensures Alike(x, y)
    decreases x
  {
    if x.List? || x.Tuple? {
      forall i | 0 <= i < |x.items| ensures Alike(x.items[i], y.items[i]) {
        EqIsAlike(x.items[i], y.items[i]);
      }
    }
  }

  // JSON values are alike only when they are equal.
  lemma {:induction false} JsonAlike(x: Value, y: Value)
    requires IsJson(x) && IsJson(y) && Alike(x, y)
    ensures PyEq(x, y)
    decreases x
  {
    if x.List? {
      forall i | 0 <= i < |x.items| ensures PyEq(x.items[i], y.items[i]) {
        assert x.items[i] in x.items && y.items[i] in y.items;
        JsonAlike(x.items[i], y.items[i]);
      }
    }
  }

  // Freezing JSON values neither creates nor destroys equality.
  lemma {:induction false} FreezeKeepsEq(x: Value, y: Value)
    requires IsJson(x) && IsJson(y)
    ensures PyEq(Freeze(x), Freeze(y)) <==> PyEq(x, y)
  {
    FreezeAlike(x, y);
    if Alike(x, y) { JsonAlike(x, y); }
    if PyEq(x, y) { EqIsAlike(x, y); }
  }

  lemma {:induction false} FreezeZip(num: Reader, xs: seq<Value>, ys: seq<Value>)
    ensures ZipSame(num, FreezeAll(xs), FreezeAll(ys)) <==> ZipAlike(num, xs, ys)
  {
    forall i | 0 <= i < |xs| && i < |ys|
      ensures Same(num, FreezeAll(xs)[i], FreezeAll(ys)[i]) <==> Same(num, xs[i], ys[i]) || Alike(xs[i], ys[i])
    {
      FreezeAlike(xs[i], ys[i]);
      if PyEq(xs[i], ys[i]) { EqIsAlike(xs[i], ys[i]); }
    }
  }

  // A registry decoded from JSON is never confusable.
  lemma {:induction false} JsonIsNotConfusable(num: Reader, raw: RawTransform)
    requires JsonTransform(raw) && ParseTransform(num, raw).Some?
    ensures !Confusable(num, raw)
  {
    if raw.cases.Some? {
      var cases := raw.cases.value;
      forall i, j | 0 <= i < j < |cases| ensures !ZipAlike(num, cases[i].physical, cases[j].physical) {
        var xs, ys := cases[i].physical, cases[j].physical;
        assert cases[i] in cases && cases[j] in cases && !ZipSame(num, xs, ys);
        var k :| 0 <= k < |xs| && k < |ys| && !Same(num, xs[k], ys[k]);
        assert xs[k] in xs && ys[k] in ys;
        if Alike(xs[k], ys[k]) { JsonAlike(xs[k], ys[k]); }
      }
    }
  }

  lemma {:induction false} FrozenCases(cases: seq<Case>)
    ensures forall c ::
      c in FreezeCases(cases) ==> FreezeAll(c.physical) == c.physical && FreezeAll(c.logical) == c.logical
  {
    forall v: Value ensures Freeze(Freeze(v)) == Freeze(v) { FreezeTwice(v); }
  }

  // What the parser accepts can be read back unambiguously exactly when its
  // cases are not confusable.
  lemma {:induction false} ParsedTransform(num: Reader, raw: RawTransform)
    requires ParseTransform(num, raw).Some?
    ensures TransformOk(num, ParseTransform(num, raw).value) <==> !Confusable(num, raw)
    ensures ParseTransform(num, raw).value.Lookup? ==> forall c :: c in ParseTransform(num, raw).value.cases ==>
      FreezeAll(c.physical) == c.physical && FreezeAll(c.logical) == c.logical
  {
    var t := ParseTransform(num, raw).value;
    if t.Lookup? {
      var cases := raw.cases.value;
      FrozenCases(cases);
      forall i, j | 0 <= i < j < |cases|
        ensures ZipSame(num, t.cases[i].physical, t.cases[j].physical)
          <==> ZipAlike(num, cases[i].physical, cases[j].physical)
      {
        FreezeZip(num, cases[i].physical, cases[j].physical);
      }
    }
  }

  lemma {:induction false} LookupParses(num: Reader, cases: seq<Case>)
    requires cases != [] && !Ambiguous(num, cases)
    ensures ParseTransform(num, RawTransform("lookup_bundle", None, None, None, Some(cases)))
      == Some(Lookup(FreezeCases(cases)))
  {}

  lemma {:induction false} MixedCases(num: Reader) returns (first: Case, second: Case)
    ensures !ZipSame(num, first.logical, second.logical) && !ZipSame(num, first.physical, second.physical)
    ensures ZipAlike(num, first.physical, second.physical)
  {
    first, second := Case([Null], [List([])]), Case([Bool(true)], [Tuple([])]);
    assert !Same(num, first.logical[0], second.logical[0]) && !Same(num, first.physical[0], second.physical[0]);
    assert Alike(first.physical[0], second.physical[0]);
  }

  // Outside JSON the parser can let such cases through: one case holds a list
  // where the other holds a tuple.
  lemma {:induction false} ListMeetsTuple(num: Reader) returns (raw: RawTransform)
    ensures ParseTransform(num, raw).Some? && !TransformOk(num, ParseTransform(num, raw).value)
  {
    var first, second := MixedCases(num);
    var cases := [first, second];
    raw := RawTransform("lookup_bundle", None, None, None, Some(cases));
    LookupParses(num, cases);
    assert cases[0] == first && cases[1] == second && Confusable(num, raw);
    ParsedTransform(num, raw);
  }

  lemma {:induction false} ParsedParameters(num: Reader, raw: seq<RawParameter>)
    requires ParseParameters(num, raw).Some?
    ensures (forall p :: p in ParseParameters(num, raw).value ==> ParameterOk(num, p))
      <==> forall r :: r in raw ==> !Confusable(num, r.transform)
  {
    if raw != [] {
      ParsedTransform(num, raw[0].transform);
      ParsedParameters(num, raw[1..]);
      var ps := ParseParameters(num, raw).value;
      var p := ParseParameter(num, raw[0]).value;
      assert ParameterOk(num, p) <==> !Confusable(num, raw[0].transform);
      assert ps == [p] + ps[1..] && raw == [raw[0]] + raw[1..];
    }
  }

  lemma {:induction false} ParsedTransforms(num: Reader, raw: seq<RawParameter>)
    requires ParseParameters(num, raw).Some?
    ensures forall p :: p in ParseParameters(num, raw).value ==> ParameterShaped(p)
  {
    if raw != [] {
      ParsedTransform(num, raw[0].transform);
      ParsedTransforms(num, raw[1..]);
      var ps := ParseParameters(num, raw).value;
      assert ps == [ps[0]] + ps[1..];
    }
  }

  // Whatever the parser accepts can be written.
  lemma {:induction false} ParsedShaped(num: Reader, raw: RawBinding)
    requires ParseBinding(num, raw).Some?
    ensures BindingShaped(ParseBinding(num, raw).value)
  {
    ParsedTransforms(num, raw.parameters);
    forall v: Value ensures Freeze(Freeze(v)) == Freeze(v) { FreezeTwice(v); }
  }

  lemma {:induction false} ParsedBinding(num: Reader, raw: RawBinding)
    requires ParseBinding(num, raw).Some?
    ensures BindingOk(num, ParseBinding(num, raw).value)
      <==> forall r :: r in raw.parameters ==> !Confusable(num, r.transform)
  {
    ParsedParameters(num, raw.parameters);
    ParsedShaped(num, raw);
  }
}
