// What a registry entry means: which requests it accepts and which physical
// values it gives them, in the words of the registry file.
module BindingMeaning {
  import opened Options
  import opened PyText
  import opened MasterBindings
  import opened BindingRoundTrip

  // ---- values ----

  // The number a value stands for: itself, or the number before the unit in
  // square brackets of a text.
  ghost predicate Denotes(num: Reader, v: Value, x: real) {
    v == Num(x)
    || (v.Text?
        && exists k: nat :: k <= |Strip(v.s)| && '[' !in Strip(v.s)[..k]
             && (k == |Strip(v.s)| || Strip(v.s)[k] == '[') && num(Strip(Strip(v.s)[..k])) == Some(x))
  }

  // Two values the registry takes for the same.
  ghost predicate Agrees(num: Reader, x: Value, y: Value) {
    PyEq(x, y) || exists r :: Denotes(num, x, r) && Denotes(num, y, r)
  }

  lemma {:induction false} HeadInside(s: string, m: nat)
    requires 0 < m <= |s|
    ensures s[0] in s[..m]
  {
    assert s[..m][0] == s[0];
  }

  lemma {:induction false} BracketAt(s: string) returns (k: nat)
    ensures k <= |s| && BeforeBracket(s) == s[..k] && '[' !in s[..k] && (k == |s| || s[k] == '[')
    ensures forall m: nat :: m <= |s| && '[' !in s[..m] && (m == |s| || s[m] == '[') ==> m == k
  {
    if s == "" || s[0] == '[' {
      k := 0;
      forall m: nat | m <= |s| && '[' !in s[..m] && (m == |s| || s[m] == '[') ensures m == 0 {
        if m > 0 { HeadInside(s, m); }
      }
    } else {
      k := BracketAt(s[1..]);
      k := k + 1;
      assert s[..k] == [s[0]] + s[1..][..k - 1];
      forall m: nat | m <= |s| && '[' !in s[..m] && (m == |s| || s[m] == '[') ensures m == k {
        assert m > 0;
        assert forall c :: c in s[1..][..m - 1] ==> c in s[..m];
      }
    }
  }

  lemma {:induction false} NumericDenotes(num: Reader, v: Value, x: real)
    ensures Numeric(num, v) == Some(x) <==> Denotes(num, v, x)
  {
    if v.Text? { var k := BracketAt(Strip(v.s)); }
  }

  lemma {:induction false} SameAgrees(num: Reader, x: Value, y: Value)
    ensures Same(num, x, y) <==> Agrees(num, x, y)
  {
    forall v: Value, r: real ensures Numeric(num, v) == Some(r) <==> Denotes(num, v, r) { NumericDenotes(num, v, r); }
    if Numeric(num, x).Some? && Numeric(num, x) == Numeric(num, y) {
      assert Denotes(num, x, Numeric(num, x).value) && Denotes(num, y, Numeric(num, x).value);
    }
  }

  // ---- what an entry must look like ----

  // The fields of a transform, by kind.
  ghost predicate TransformFields(num: Reader, t: RawTransform) {
    match t.kind
    case "identity" => t.factor.None? && t.base.None? && t.hz.None? && t.cases.None?
    case "evidence_only" => t.factor.None? && t.base.None? && t.hz.None? && t.cases.None?
    case "scale" =>
      t.base.None? && t.hz.None? && t.cases.None? && t.factor.Some? && t.factor.value.Num? && t.factor.value.r != 0.0
    case "ratio_from_fixed_base" =>
      t.factor.None? && t.hz.None? && t.cases.None? && t.base.Some? && t.base.value.Num? && t.base.value.r > 0.0
    case "harmonic_order" =>
      t.factor.None? && t.base.None? && t.cases.None? && t.hz.Some? && t.hz.value.Num? && t.hz.value.r > 0.0
    case "lookup_bundle" =>
      t.factor.None? && t.base.None? && t.hz.None? && t.cases.Some? && t.cases.value != []
      && forall i, j :: 0 <= i < j < |t.cases.value| ==>
           Differ(num, t.cases.value[i].logical, t.cases.value[j].logical)
           && Differ(num, t.cases.value[i].physical, t.cases.value[j].physical)
    case _ => false
  }

  ghost predicate Differ(num: Reader, xs: seq<Value>, ys: seq<Value>) {
    exists i :: 0 <= i < |xs| && i < |ys| && !Agrees(num, xs[i], ys[i])
  }

  function Plain(names: seq<string>): (r: seq<string>)
    ensures |r| == |names| && forall i :: 0 <= i < |r| ==> r[i] == Strip(names[i])
  {
    seq(|names|, i requires 0 <= i < |names| => Strip(names[i]))
  }

  predicate Named(names: seq<string>) {
    names != [] && "" !in Plain(names) && forall i, j :: 0 <= i < j < |names| ==> Plain(names)[i] != Plain(names)[j]
  }

  ghost predicate ParameterFields(num: Reader, raw: RawParameter) {
    Named(raw.logical) && Named(raw.physical) && TransformFields(num, raw.transform)
    && if raw.transform.kind == "lookup_bundle" then
         raw.transform.cases.Some?
         && forall c :: c in raw.transform.cases.value ==>
              |c.logical| == |raw.logical| && |c.physical| == |raw.physical|
       else |raw.logical| == 1 && |raw.physical| == 1
  }

  // All logical names, and all physical names, of an entry.
  function ParameterNames(raw: seq<RawParameter>, logical: bool): seq<string> {
    if raw == [] then []
    else Plain(if logical then raw[0].logical else raw[0].physical) + ParameterNames(raw[1..], logical)
  }

  function LogicalOf(raw: RawBinding): seq<string> {
    ParameterNames(raw.parameters, true)
    + seq(|raw.evidence|, i requires 0 <= i < |raw.evidence| => Strip(raw.evidence[i].logical))
  }

  function PhysicalOf(raw: RawBinding): seq<string> {
    ParameterNames(raw.parameters, false)
    + seq(|raw.fixed|, i requires 0 <= i < |raw.fixed| => Strip(raw.fixed[i].physical))
  }

  predicate Distinct(names: seq<string>) { forall i, j :: 0 <= i < j < |names| ==> names[i] != names[j] }

  // An entry the parser accepts.
  ghost predicate Entry(num: Reader, raw: RawBinding) {
    (forall r :: r in raw.parameters ==> ParameterFields(num, r))
    && (forall f :: f in raw.fixed ==> Strip(f.physical) != "")
    && (forall e :: e in raw.evidence ==>
          Strip(e.logical) != "" && Strip(e.kind) != ""
          && (e.minimum.Some? && e.maximum.Some? ==> e.minimum.value <= e.maximum.value))
    && Distinct(LogicalOf(raw)) && Distinct(PhysicalOf(raw))
  }

  // ---- what a request must look like ----

  predicate Gives(params: Params, names: seq<string>) { forall i :: 0 <= i < |names| ==> Strip(names[i]) in params }

  // The values match the logical side of a case, frozen.
  ghost predicate CaseMatches(num: Reader, c: Case, raw: RawParameter, params: Params)
    requires Gives(params, raw.logical)
  {
    forall i :: 0 <= i < |c.logical| && i < |raw.logical| ==>
      Agrees(num, Freeze(c.logical[i]), params[Strip(raw.logical[i])])
  }

  ghost predicate Convertible(num: Reader, raw: RawParameter, params: Params)
    requires Gives(params, raw.logical) && raw.logical != []
  {
    match raw.transform.kind
    case "identity" => true
    case "scale" => exists x :: Denotes(num, params[Strip(raw.logical[0])], x)
    case "ratio_from_fixed_base" => exists x :: Denotes(num, params[Strip(raw.logical[0])], x)
    case "harmonic_order" => exists x :: Denotes(num, params[Strip(raw.logical[0])], x)
    case "lookup_bundle" =>
      raw.transform.cases.Some? && exists c :: c in raw.transform.cases.value && CaseMatches(num, c, raw, params)
    case _ => false
  }

  ghost predicate EvidenceMeets(num: Reader, e: Evidence, v: Value) {
    (Strip(e.kind) == "string" && v.Text?)
    || (Strip(e.kind) == "float"
        && exists x :: Denotes(num, v, x) && (e.minimum.Some? ==> e.minimum.value <= x)
                       && (e.maximum.Some? ==> x <= e.maximum.value))
  }

  ghost predicate AllConvertible(num: Reader, raw: seq<RawParameter>, params: Params) {
    forall r :: r in raw ==> r.logical != [] && Gives(params, r.logical) && Convertible(num, r, params)
  }

  ghost predicate AllMeet(num: Reader, raw: seq<Evidence>, params: Params) {
    forall e :: e in raw ==> Strip(e.logical) in params && EvidenceMeets(num, e, params[Strip(e.logical)])
  }

  // A request resolve_component accepts: the logical names of the entry and no
  // others, each with a value that can be converted.
  ghost predicate Requested(num: Reader, raw: RawBinding, params: Params) {
    (forall n :: n in params <==> n in LogicalOf(raw))
    && AllConvertible(num, raw.parameters, params) && AllMeet(num, raw.evidence, params)
  }

  // ---- what comes out ----

  // The physical values of one parameter.
  ghost predicate Converts(num: Reader, raw: RawParameter, params: Params, physical: Params) {
    raw.logical != [] && raw.physical != [] && Gives(params, raw.logical) && Gives(physical, raw.physical)
    && var t, v, out := raw.transform, params[Strip(raw.logical[0])], physical[Strip(raw.physical[0])];
       match t.kind
       case "identity" => out == Freeze(v)
       case "scale" =>
         t.factor.Some? && t.factor.value.Num? && exists x :: Denotes(num, v, x) && out == Num(t.factor.value.r * x)
       case "ratio_from_fixed_base" =>
         t.base.Some? && t.base.value.Num? && exists x :: Denotes(num, v, x) && out == Num(t.base.value.r * x)
       case "harmonic_order" =>
         t.hz.Some? && t.hz.value.Num? && out.Num? && Denotes(num, v, out.r * t.hz.value.r)
       case "lookup_bundle" => t.cases.Some? && LooksUp(num, raw, t.cases.value, params, physical)
       case _ => false
  }

  // The physical side, frozen, of the first case that matches.
  ghost predicate LooksUp(num: Reader, raw: RawParameter, cases: seq<Case>, params: Params, physical: Params)
    requires Gives(params, raw.logical) && Gives(physical, raw.physical)
  {
    exists k :: 0 <= k < |cases| && CaseMatches(num, cases[k], raw, params)
      && (forall j :: 0 <= j < k ==> !CaseMatches(num, cases[j], raw, params))
      && |cases[k].physical| == |raw.physical|
      && forall i :: 0 <= i < |raw.physical| ==> physical[Strip(raw.physical[i])] == Freeze(cases[k].physical[i])
  }

  // The outcome of an accepted request.
  ghost predicate Resolves(num: Reader, raw: RawBinding, params: Params, r: Resolved) {
    (forall n :: n in r.physical <==> n in PhysicalOf(raw))
    && (forall p :: p in raw.parameters ==> Converts(num, p, params, r.physical))
    && (forall f :: f in raw.fixed ==>
          Strip(f.physical) in r.physical && r.physical[Strip(f.physical)] == Freeze(f.value))
    && (forall n :: n in r.evidence <==> exists e :: e in raw.evidence && Strip(e.logical) == n)
    && (forall n :: n in r.evidence ==> n in params && r.evidence[n] == Freeze(params[n]))
  }

  // A value holding a list, under an identity transform.
  ghost predicate ListThrough(raw: RawBinding, n: string, v: Value) {
    !NoLists(v)
    && exists r :: r in raw.parameters && n in Plain(r.logical) && r.transform.kind == "identity"
  }

  // ---- the parser accepts exactly such entries ----

  lemma {:induction false} DifferZip(num: Reader, xs: seq<Value>, ys: seq<Value>)
    ensures Differ(num, xs, ys) <==> !ZipSame(num, xs, ys)
  {
    forall i | 0 <= i < |xs| && i < |ys| ensures Same(num, xs[i], ys[i]) <==> Agrees(num, xs[i], ys[i]) {
      SameAgrees(num, xs[i], ys[i]);
    }
  }

  lemma {:induction false} AmbiguousDiffer(num: Reader, cases: seq<Case>)
    ensures !Ambiguous(num, cases) <==>
            forall i, j :: 0 <= i < j < |cases| ==>
              Differ(num, cases[i].logical, cases[j].logical) && Differ(num, cases[i].physical, cases[j].physical)
  {
    forall i, j | 0 <= i < j < |cases|
      ensures Differ(num, cases[i].logical, cases[j].logical) <==> !ZipSame(num, cases[i].logical, cases[j].logical)
      ensures Differ(num, cases[i].physical, cases[j].physical) <==> !ZipSame(num, cases[i].physical, cases[j].physical)
    {
      DifferZip(num, cases[i].logical, cases[j].logical);
      DifferZip(num, cases[i].physical, cases[j].physical);
    }
  }

  lemma {:induction false} TransformParses(num: Reader, t: RawTransform)
    ensures ParseTransform(num, t).Some? <==> TransformFields(num, t)
  {
    if t.cases.Some? { AmbiguousDiffer(num, t.cases.value); }
  }

  lemma {:induction false} TransformValue(num: Reader, t: RawTransform)
    requires TransformFields(num, t) && ParseTransform(num, t).Some?
    ensures ParseTransform(num, t).value ==
            match t.kind
            case "identity" => Identity
            case "evidence_only" => EvidenceOnly
            case "scale" => Scale(t.factor.value.r)
            case "ratio_from_fixed_base" => Ratio(t.base.value.r)
            case "harmonic_order" => Harmonic(t.hz.value.r)
            case _ => Lookup(FreezeCases(t.cases.value))
  {}

  lemma {:induction false} NamesArePlain(names: seq<string>)
    ensures Names(names) == if "" in Plain(names) then None else Some(Plain(names))
  {
    if i :| 0 <= i < |names| && Strip(names[i]) == "" { assert Plain(names)[i] in Plain(names); }
  }

  lemma {:induction false} ParameterParses(num: Reader, raw: RawParameter)
    ensures ParseParameter(num, raw).Some? <==> ParameterFields(num, raw)
    ensures ParameterFields(num, raw) ==>
              TransformFields(num, raw.transform) && ParseTransform(num, raw.transform).Some?
              && ParseParameter(num, raw).value
                 == Parameter(Plain(raw.logical), Plain(raw.physical), ParseTransform(num, raw.transform).value)
  {
    NamesArePlain(raw.logical);
    NamesArePlain(raw.physical);
    TransformParses(num, raw.transform);
    if TransformFields(num, raw.transform) {
      TransformValue(num, raw.transform);
      var t := ParseTransform(num, raw.transform).value;
      if raw.transform.kind == "lookup_bundle" { CaseSizes(raw.transform.cases.value, |raw.logical|, |raw.physical|); }
    }
  }

  lemma {:induction false} CaseSizes(cases: seq<Case>, logical: nat, physical: nat)
    ensures ArityOk(Lookup(FreezeCases(cases)), logical, physical) <==>
            forall c :: c in cases ==> |c.logical| == logical && |c.physical| == physical
  {
    var frozen := FreezeCases(cases);
    assert forall i :: 0 <= i < |cases| ==>
      |frozen[i].logical| == |cases[i].logical| && |frozen[i].physical| == |cases[i].physical|;
    if forall c :: c in cases ==> |c.logical| == logical && |c.physical| == physical {
      forall c | c in frozen ensures |c.logical| == logical && |c.physical| == physical {
        var i :| 0 <= i < |frozen| && frozen[i] == c;
        assert cases[i] in cases;
      }
    }
    if ArityOk(Lookup(frozen), logical, physical) {
      forall c | c in cases ensures |c.logical| == logical && |c.physical| == physical {
        var i :| 0 <= i < |cases| && cases[i] == c;
        assert frozen[i] in frozen;
      }
    }
  }

  lemma {:induction false} ParametersParse(num: Reader, raw: seq<RawParameter>)
    ensures ParseParameters(num, raw).Some? <==> forall r :: r in raw ==> ParameterFields(num, r)
    ensures ParseParameters(num, raw).Some? ==>
              var ps := ParseParameters(num, raw).value;
              |ps| == |raw| && (forall i :: 0 <= i < |raw| ==> ParseParameter(num, raw[i]) == Some(ps[i]))
              && LogicalNames(ps) == ParameterNames(raw, true) && PhysicalNames(ps) == ParameterNames(raw, false)
  {
    if raw != [] {
      ParametersParse(num, raw[1..]);
      ParameterParses(num, raw[0]);
      assert raw == [raw[0]] + raw[1..];
      if ParseParameters(num, raw).Some? {
        var ps := ParseParameters(num, raw).value;
        assert ps[0] == ParseParameter(num, raw[0]).value && ps[1..] == ParseParameters(num, raw[1..]).value;
      }
    }
  }

  lemma {:induction false} OwnNames(raw: RawBinding)
    ensures EvidenceNames(ParseEvidence(raw.evidence))
         == seq(|raw.evidence|, i requires 0 <= i < |raw.evidence| => Strip(raw.evidence[i].logical))
    ensures FixedNames(ParseFixed(raw.fixed))
         == seq(|raw.fixed|, i requires 0 <= i < |raw.fixed| => Strip(raw.fixed[i].physical))
  {}

  // The entry without its parameters.
  predicate RestFields(raw: RawBinding) {
    (forall f :: f in raw.fixed ==> Strip(f.physical) != "")
    && forall e :: e in raw.evidence ==>
         Strip(e.logical) != "" && Strip(e.kind) != ""
         && (e.minimum.Some? && e.maximum.Some? ==> e.minimum.value <= e.maximum.value)
  }

  lemma {:induction false} RestParses(raw: RawBinding)
    ensures RestFields(raw) <==>
            !((exists f :: f in raw.fixed && Strip(f.physical) == "")
              || exists e :: e in raw.evidence && BadEvidence(e))
  {}

  lemma {:induction false} ParsedEntry(num: Reader, raw: RawBinding)
    ensures ParseBinding(num, raw).Some? <==> Entry(num, raw)
    ensures ParseBinding(num, raw).Some? ==> ParsedParts(num, raw, ParseBinding(num, raw).value)
  {
    ParametersParse(num, raw.parameters);
    OwnNames(raw);
    RestParses(raw);
    assert Entry(num, raw) <==>
      (forall r :: r in raw.parameters ==> ParameterFields(num, r)) && RestFields(raw)
      && Distinct(LogicalOf(raw)) && Distinct(PhysicalOf(raw));
    assert forall names :: NoDup(names) <==> Distinct(names);
  }

  // The parsed entry, item by item.
  ghost predicate ParsedParts(num: Reader, raw: RawBinding, b: Binding) {
    |b.parameters| == |raw.parameters| && |b.fixed| == |raw.fixed| && |b.evidence| == |raw.evidence|
    && (forall i :: 0 <= i < |raw.parameters| ==> ParseParameter(num, raw.parameters[i]) == Some(b.parameters[i]))
    && b.fixed == ParseFixed(raw.fixed) && b.evidence == ParseEvidence(raw.evidence)
    && LogicalNames(b.parameters) + EvidenceNames(b.evidence) == LogicalOf(raw)
    && PhysicalNames(b.parameters) + FixedNames(b.fixed) == PhysicalOf(raw)
  }

  // ---- requests ----

  lemma {:induction false} GivesCovers(params: Params, names: seq<string>)
    ensures Gives(params, names) <==> Covers(params, Plain(names))
    ensures Gives(params, names) ==>
              forall i :: 0 <= i < |names| ==> ValuesAt(params, Plain(names))[i] == params[Strip(names[i])]
  {
    assert forall i :: 0 <= i < |names| ==> Plain(names)[i] in Plain(names);
  }

  lemma {:induction false} MatchesZip(num: Reader, c: Case, raw: RawParameter, params: Params)
    requires Gives(params, raw.logical) && Covers(params, Plain(raw.logical))
    ensures CaseMatches(num, c, raw, params) <==>
            ZipSame(num, FreezeAll(c.logical), ValuesAt(params, Plain(raw.logical)))
  {
    GivesCovers(params, raw.logical);
    forall i | 0 <= i < |c.logical| && i < |raw.logical|
      ensures Agrees(num, Freeze(c.logical[i]), params[Strip(raw.logical[i])])
         <==> Same(num, FreezeAll(c.logical)[i], ValuesAt(params, Plain(raw.logical))[i])
    {
      SameAgrees(num, Freeze(c.logical[i]), params[Strip(raw.logical[i])]);
    }
  }

  // The first case whose frozen logical side matches.
  lemma {:induction false} FirstMatch(num: Reader, raw: RawParameter, cases: seq<Case>, params: Params)
    requires Gives(params, raw.logical) && Covers(params, Plain(raw.logical))
    ensures var k := FirstCase(num, FreezeCases(cases), ValuesAt(params, Plain(raw.logical)), true);
            if k.Some? then
              k.value < |cases| && CaseMatches(num, cases[k.value], raw, params)
              && forall j :: 0 <= j < k.value ==> !CaseMatches(num, cases[j], raw, params)
            else forall c :: c in cases ==> !CaseMatches(num, c, raw, params)
  {
    var frozen, values := FreezeCases(cases), ValuesAt(params, Plain(raw.logical));
    FirstCaseFound(num, frozen, values, true);
    forall j | 0 <= j < |cases|
      ensures CaseMatches(num, cases[j], raw, params) <==> ZipSame(num, frozen[j].logical, values)
    {
      MatchesZip(num, cases[j], raw, params);
    }
  }

  lemma {:induction false} ForwardDecided(num: Reader, raw: RawParameter, params: Params)
    requires ParameterFields(num, raw) && ParseParameter(num, raw).Some?
    ensures ParameterForward(num, ParseParameter(num, raw).value, params) <==>
            Gives(params, raw.logical) && Convertible(num, raw, params)
  {
    ParameterParses(num, raw);
    TransformValue(num, raw.transform);
    GivesCovers(params, raw.logical);
    if Gives(params, raw.logical) {
      var v := params[Strip(raw.logical[0])];
      forall x ensures Numeric(num, v) == Some(x) <==> Denotes(num, v, x) { NumericDenotes(num, v, x); }
      if Numeric(num, v).Some? { assert Denotes(num, v, Numeric(num, v).value); }
      if raw.transform.kind == "lookup_bundle" { FirstMatch(num, raw, raw.transform.cases.value, params); }
    }
  }

  lemma {:induction false} EvidenceDecided(num: Reader, e: Evidence, parsed: Evidence, v: Value)
    requires parsed == e.(logical := Strip(e.logical), kind := Strip(e.kind))
    ensures EvidenceValid(num, parsed, v) <==> EvidenceMeets(num, e, v)
  {
    forall x ensures Numeric(num, v) == Some(x) <==> Denotes(num, v, x) { NumericDenotes(num, v, x); }
    if Numeric(num, v).Some? { assert Denotes(num, v, Numeric(num, v).value); }
  }

  lemma {:induction false} KeysDecided(raw: RawBinding, b: Binding, params: Params)
    requires LogicalNames(b.parameters) + EvidenceNames(b.evidence) == LogicalOf(raw)
    ensures params.Keys == LogicalSet(b) <==> forall n :: n in params <==> n in LogicalOf(raw)
  {
    forall n ensures n in LogicalSet(b) <==> n in LogicalOf(raw) {}
  }

  lemma {:induction false} ParametersDecided(num: Reader, raw: seq<RawParameter>, ps: seq<Parameter>, params: Params)
    requires |ps| == |raw| && forall i :: 0 <= i < |raw| ==> ParseParameter(num, raw[i]) == Some(ps[i])
    ensures (forall p :: p in ps ==> ParameterForward(num, p, params)) <==> AllConvertible(num, raw, params)
  {
    forall i | 0 <= i < |raw|
      ensures ParameterForward(num, ps[i], params) <==>
              raw[i].logical != [] && Gives(params, raw[i].logical) && Convertible(num, raw[i], params)
    {
      ParameterParses(num, raw[i]);
      ForwardDecided(num, raw[i], params);
    }
    if forall p :: p in ps ==> ParameterForward(num, p, params) {
      forall r | r in raw ensures r.logical != [] && Gives(params, r.logical) && Convertible(num, r, params) {
        var i :| 0 <= i < |raw| && raw[i] == r;
        assert ps[i] in ps;
      }
    }
    if AllConvertible(num, raw, params) {
      forall p | p in ps ensures ParameterForward(num, p, params) {
        var i :| 0 <= i < |ps| && ps[i] == p;
        assert raw[i] in raw;
      }
    }
  }

  ghost predicate AllValid(num: Reader, es: seq<Evidence>, params: Params) {
    forall e :: e in es ==> e.logical in params && EvidenceValid(num, e, params[e.logical])
  }

  lemma {:induction false} EvidenceListDecided(num: Reader, raw: seq<Evidence>, params: Params)
    ensures AllValid(num, ParseEvidence(raw), params) <==> AllMeet(num, raw, params)
  {
    var es := ParseEvidence(raw);
    if AllValid(num, es, params) {
      forall e | e in raw ensures Strip(e.logical) in params && EvidenceMeets(num, e, params[Strip(e.logical)]) {
        var i :| 0 <= i < |raw| && raw[i] == e;
        assert es[i] in es;
        EvidenceDecided(num, e, es[i], params[es[i].logical]);
      }
    }
    if AllMeet(num, raw, params) {
      forall e | e in es ensures e.logical in params && EvidenceValid(num, e, params[e.logical]) {
        var i :| 0 <= i < |es| && es[i] == e;
        assert raw[i] in raw;
        EvidenceDecided(num, raw[i], e, params[e.logical]);
      }
    }
  }

  lemma {:induction false} RequestedIsResolvable(num: Reader, raw: RawBinding, params: Params)
    requires Entry(num, raw) && ParseBinding(num, raw).Some?
    ensures Resolvable(num, ParseBinding(num, raw).value, params) <==> Requested(num, raw, params)
  {
    ParsedEntry(num, raw);
    var b := ParseBinding(num, raw).value;
    KeysDecided(raw, b, params);
    ParametersDecided(num, raw.parameters, b.parameters, params);
    EvidenceListDecided(num, raw.evidence, params);
    ResolvableParts(num, b, params);
  }

  lemma {:induction false} ResolvableParts(num: Reader, b: Binding, params: Params)
    ensures Resolvable(num, b, params) <==>
            params.Keys == LogicalSet(b) && (forall p :: p in b.parameters ==> ParameterForward(num, p, params))
            && AllValid(num, b.evidence, params)
  {}

  // ---- results ----

  lemma {:induction false} WrittenMeans(num: Reader, raw: RawParameter, params: Params, physical: Params)
    requires ParameterFields(num, raw) && ParseParameter(num, raw).Some?
    requires Written(num, ParseParameter(num, raw).value, params, physical)
    ensures Converts(num, raw, params, physical)
  {
    ParameterParses(num, raw);
    TransformValue(num, raw.transform);
    GivesCovers(params, raw.logical);
    var p := ParseParameter(num, raw).value;
    var values := ValuesAt(params, Plain(raw.logical));
    var out := Forward(num, p.transform, values).value;
    assert forall i :: 0 <= i < |raw.physical| ==>
      p.physical[i] in physical && physical[p.physical[i]] == Freeze(out[i]);
    var t, v := raw.transform, params[Strip(raw.logical[0])];
    assert values[0] == v;
    assert p.transform == ParseTransform(num, t).value;
    assert t.kind != "lookup_bundle" ==> physical[Strip(raw.physical[0])] == Freeze(out[0]);
    if t.kind == "scale" || t.kind == "ratio_from_fixed_base" || t.kind == "harmonic_order" {
      NumericDenotes(num, v, Numeric(num, v).value);
      if t.kind == "harmonic_order" { HarmonicMeans(Numeric(num, v).value, t.hz.value.r); }
    } else if t.kind == "lookup_bundle" {
      assert forall i :: 0 <= i < |raw.physical| ==> physical[Strip(raw.physical[i])] == Freeze(out[i]);
      LookupMeans(num, raw, t.cases.value, params, physical);
    }
  }

  lemma {:induction false} LookupMeans(num: Reader, raw: RawParameter, cases: seq<Case>, params: Params,
          physical: Params)
    requires Gives(params, raw.logical) && Gives(physical, raw.physical) && Covers(params, Plain(raw.logical))
    requires Forward(num, Lookup(FreezeCases(cases)), ValuesAt(params, Plain(raw.logical))).Some?
    requires forall c :: c in cases ==> |c.physical| == |raw.physical|
    requires var out := Forward(num, Lookup(FreezeCases(cases)), ValuesAt(params, Plain(raw.logical))).value;
             |out| == |raw.physical|
             && forall i :: 0 <= i < |raw.physical| ==> physical[Strip(raw.physical[i])] == Freeze(out[i])
    ensures LooksUp(num, raw, cases, params, physical)
  {
    FirstMatch(num, raw, cases, params);
    var k := FirstCase(num, FreezeCases(cases), ValuesAt(params, Plain(raw.logical)), true).value;
    assert cases[k] in cases;
    forall i | 0 <= i < |raw.physical| ensures physical[Strip(raw.physical[i])] == Freeze(cases[k].physical[i]) {
      FreezeTwice(cases[k].physical[i]);
    }
  }

  lemma {:induction false} HarmonicMeans(x: real, hz: real)
    requires hz > 0.0
    ensures (x * (1.0 / hz)) * hz == x
  {
    assert (1.0 / hz) * hz == 1.0;
    assert (x * (1.0 / hz)) * hz == x * ((1.0 / hz) * hz);
  }

  lemma {:induction false} ResolutionMeans(num: Reader, raw: RawBinding, params: Params, r: Resolved)
    requires Entry(num, raw) && ParseBinding(num, raw).Some?
    requires Resolution(num, ParseBinding(num, raw).value, params, r)
    ensures Resolves(num, raw, params, r)
  {
    ParsedEntry(num, raw);
    var b := ParseBinding(num, raw).value;
    forall p | p in raw.parameters ensures Converts(num, p, params, r.physical) {
      var i :| 0 <= i < |raw.parameters| && raw.parameters[i] == p;
      assert b.parameters[i] in b.parameters;
      WrittenMeans(num, p, params, r.physical);
    }
    forall f | f in raw.fixed
      ensures Strip(f.physical) in r.physical && r.physical[Strip(f.physical)] == Freeze(f.value)
    {
      var i :| 0 <= i < |raw.fixed| && raw.fixed[i] == f;
      assert b.fixed[i] in b.fixed;
    }
    EvidenceKeys(num, raw, params, r);
  }

  lemma {:induction false} EvidenceKeys(num: Reader, raw: RawBinding, params: Params, r: Resolved)
    requires ParseBinding(num, raw).Some? && ParsedParts(num, raw, ParseBinding(num, raw).value)
    requires Resolution(num, ParseBinding(num, raw).value, params, r)
    ensures forall n :: n in r.evidence <==> exists e :: e in raw.evidence && Strip(e.logical) == n
  {
    var b := ParseBinding(num, raw).value;
    forall n ensures n in EvidenceNames(b.evidence) <==> exists e :: e in raw.evidence && Strip(e.logical) == n {
      if n in EvidenceNames(b.evidence) {
        var i :| 0 <= i < |b.evidence| && EvidenceNames(b.evidence)[i] == n;
        assert raw.evidence[i] in raw.evidence && Strip(raw.evidence[i].logical) == n;
      }
      if e :| e in raw.evidence && Strip(e.logical) == n {
        var i :| 0 <= i < |raw.evidence| && raw.evidence[i] == e;
        assert EvidenceNames(b.evidence)[i] == n;
      }
    }
    forall e | e in b.evidence ensures e.logical in params {}
    forall n | n in EvidenceNames(b.evidence) ensures n in params {
      var i :| 0 <= i < |b.evidence| && EvidenceNames(b.evidence)[i] == n;
      assert b.evidence[i] in b.evidence;
    }
  }

  // Only identity parameters let a list through altered.
  lemma {:induction false} ParsedIdentity(num: Reader, raw: RawBinding, i: nat)
    requires ParseBinding(num, raw).Some? && i < |raw.parameters|
    ensures i < |ParseBinding(num, raw).value.parameters|
    ensures var p := ParseBinding(num, raw).value.parameters[i];
            p in ParseBinding(num, raw).value.parameters && p.logical == Plain(raw.parameters[i].logical)
            && (p.transform.Identity? <==> raw.parameters[i].transform.kind == "identity")
  {
    ParsedEntry(num, raw);
    assert raw.parameters[i] in raw.parameters;
    ParameterParses(num, raw.parameters[i]);
    TransformValue(num, raw.parameters[i].transform);
  }

  lemma {:induction false} AlteredByIdentity(num: Reader, raw: RawBinding, n: string, v: Value)
    requires ParseBinding(num, raw).Some? && Altered(ParseBinding(num, raw).value, n, v)
    ensures ListThrough(raw, n, v)
  {
    var b := ParseBinding(num, raw).value;
    var p :| p in b.parameters && n in p.logical && IdentityBound(p, v);
    var i :| 0 <= i < |b.parameters| && b.parameters[i] == p;
    ParsedEntry(num, raw);
    ParsedIdentity(num, raw, i);
    assert raw.parameters[i] in raw.parameters;
  }

  lemma {:induction false} AlteredIsList(num: Reader, raw: RawBinding, n: string, v: Value)
    requires ParseBinding(num, raw).Some?
    ensures Altered(ParseBinding(num, raw).value, n, v) <==> ListThrough(raw, n, v)
  {
    if Altered(ParseBinding(num, raw).value, n, v) {
      AlteredByIdentity(num, raw, n, v);
    } else if ListThrough(raw, n, v) {
      var p :| p in raw.parameters && n in Plain(p.logical) && p.transform.kind == "identity";
      var i :| 0 <= i < |raw.parameters| && raw.parameters[i] == p;
      ParsedIdentity(num, raw, i);
    }
  }
}
