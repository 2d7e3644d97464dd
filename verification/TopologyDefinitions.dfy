// Local definitions written beside Main, and the audit of the whole project.
module TopologyDefinitions {
  import opened Options
  import opened TopologyTree
  import opened TopologyWriter
  import opened TopologyAudit
  import opened TopologyRoundTrip
  import opened TopologyCanvas
  import opened TopologyProject

  predicate IsDefinition(e: Element) { Fold(e.tag) == "definition" }

  predicate IsMain(e: Element) { IsDefinition(e) && Fold(GetOr(e, Name, "")) == "main" }

  predicate IsOwn(e: Element) { IsDefinition(e) && Fold(GetOr(e, Name, "")) !in ["station", "main"] }

  // _definition_element
  function DesignElement(num: Numerals, d: Design): Element
    requires Drawn(d.conductors)
  {
    SortedDrawn(d.conductors);
    Element("Definition", map[ClassId := "UserCmpDefn", Name := d.name],
            [Element("paramlist", map[Name := ""], [Element("param", map[Name := "Description", Value := ""], [])]),
             Element("form", map[Name := ""], []),
             Element("svg", map[],
               PortElements(num, "port", SortBy(d.ports, PORT_NAME)) + [Element("rect", map[], [])]),
             Element("script", map[], []),
             Element("schematic", map[ClassId := "UserCanvas"],
                     [PARAMLIST] + ConductorElements(num, SortBy(d.conductors, CONDUCTOR_ID)))])
  }

  predicate DrawnDesigns(ds: seq<Design>) { forall i :: 0 <= i < |ds| ==> Drawn(ds[i].conductors) }

  function DesignElements(num: Numerals, ds: seq<Design>): (r: seq<Element>)
    requires DrawnDesigns(ds)
    ensures |r| == |ds|
  {
    seq(|ds|, i requires 0 <= i < |ds| => DesignElement(num, ds[i]))
  }

  function Kept(elements: seq<Element>): seq<Element> {
    if elements == [] then [] else (if IsOwn(elements[0]) then [] else [elements[0]]) + Kept(elements[1..])
  }

  // Everything up to the first Main definition, or everything.
  function BeforeMain(elements: seq<Element>): nat
    ensures BeforeMain(elements) <= |elements|
  {
    if elements == [] || IsMain(elements[0]) then 0 else 1 + BeforeMain(elements[1..])
  }

  lemma {:induction false} SortedDesigns(ds: seq<Design>)
    requires DrawnDesigns(ds)
    ensures DrawnDesigns(SortBy(ds, DESIGN_NAME))
  {
    SortByKeeps(ds, DESIGN_NAME);
    forall i | 0 <= i < |SortBy(ds, DESIGN_NAME)| ensures Drawn(SortBy(ds, DESIGN_NAME)[i].conductors) {
      assert SortBy(ds, DESIGN_NAME)[i] in ds;
    }
  }

  // _replace_definitions: the case's definitions take the place of the seed's,
  // just before Main.
  function ReplaceDefinitions(num: Numerals, c: Case, elements: seq<Element>): seq<Element>
    requires DrawnDesigns(c.designs)
  {
    SortedDesigns(c.designs);
    var kept := Kept(elements);
    var k := BeforeMain(kept);
    kept[..k] + DesignElements(num, SortBy(c.designs, DESIGN_NAME)) + kept[k..]
  }

  // ---- the audit ----

  // The elements of a definition outside its first schematic.
  function Outside(kids: seq<Element>): seq<Element> {
    if kids == [] then []
    else if Fold(kids[0].tag) == "schematic" then IterAll(kids[1..])
    else Iter(kids[0]) + Outside(kids[1..])
  }

  predicate DesignMatches(num: Numerals, e: Element, d: Design) {
    (exists i :: 0 <= i < |e.children| && Fold(e.children[i].tag) == "schematic")
    && PortsMatch(num, [e] + Outside(e.children), d.ports)
  }

  function OwnByName(elements: seq<Element>): map<string, Element> {
    if elements == [] then map[] else
      var last := elements[|elements| - 1];
      var m := OwnByName(elements[..|elements| - 1]);
      if IsOwn(last) then m[GetOr(last, Name, "") := last] else m
  }

  predicate AuditDefinitions(num: Numerals, c: Case, elements: seq<Element>) {
    var observed, expected := OwnByName(elements), ByKey(c.designs, DESIGN_NAME);
    observed.Keys == expected.Keys
      && forall name :: name in expected ==> DesignMatches(num, observed[name], expected[name])
  }

  lemma {:induction false} OwnSource(elements: seq<Element>, name: string)
    requires name in OwnByName(elements)
    ensures var e := OwnByName(elements)[name]; e in elements && IsOwn(e) && GetOr(e, Name, "") == name
  {
    var n := |elements| - 1;
    if !(IsOwn(elements[n]) && GetOr(elements[n], Name, "") == name) { OwnSource(elements[..n], name); }
  }

  lemma {:induction false} OwnHolds(elements: seq<Element>, e: Element)
    requires e in elements && IsOwn(e)
    ensures GetOr(e, Name, "") in OwnByName(elements)
  {
    var n := |elements| - 1;
    if e != elements[n] {
      assert elements == elements[..n] + [elements[n]];
      OwnHolds(elements[..n], e);
    }
  }

  lemma {:induction false} KeptHasNone(elements: seq<Element>)
    ensures forall e :: e in Kept(elements) ==> !IsOwn(e)
  {
    if elements != [] { KeptHasNone(elements[1..]); }
  }

  // ---- one definition ----

  lemma {:induction false} DesignWords()
    ensures Fold("Definition") == "definition" && Fold("schematic") == "schematic"
    ensures Fold("paramlist") != "port" && Fold("param") != "port" && Fold("form") != "port" && Fold("svg") != "port"
    ensures Fold("rect") != "port" && Fold("script") != "port" && Fold("Definition") != "port"
    ensures Fold("paramlist") != "schematic" && Fold("form") != "schematic" && Fold("svg") != "schematic"
    ensures Fold("script") != "schematic"
  {
    assert Fold("param") == "param" && Fold("form") == "form" && Fold("rect") == "rect";
    assert "form"[0] == 'f' && "rect"[0] == 'r';
    assert |Fold("paramlist")| == 9 && Fold("paramlist")[0] == 'p' && "schematic"[0] == 's';
  }

  lemma {:induction false} OutsideStep(kids: seq<Element>, k: nat)
    requires k < |kids| && Fold(kids[k].tag) != "schematic"
    ensures Outside(kids[k..]) == Iter(kids[k]) + Outside(kids[k + 1..])
  {
    assert kids[k..][1..] == kids[k + 1..];
  }

  lemma {:induction false} OutsideList(a: Element, b: Element, s: Element, t: Element, z: Element)
    requires Fold(a.tag) != "schematic" && Fold(b.tag) != "schematic" && Fold(s.tag) != "schematic"
    requires Fold(t.tag) != "schematic" && Fold(z.tag) == "schematic"
    ensures Outside([a, b, s, t, z]) == Iter(a) + (Iter(b) + (Iter(s) + Iter(t)))
  {
    var kids := [a, b, s, t, z];
    assert kids[4..][1..] == [];
    assert Outside(kids[4..]) == [];
    OutsideStep(kids, 3);
    OutsideStep(kids, 2);
    OutsideStep(kids, 1);
    OutsideStep(kids, 0);
    assert kids[0..] == kids;
  }

  lemma {:induction false} LeafIter(e: Element)
    requires e.children == []
    ensures Iter(e) == [e]
  {
  }

  lemma {:induction false} FlatIter(e: Element)
    requires forall k :: k in e.children ==> k.children == []
    ensures Iter(e) == [e] + e.children
  {
    IterLeaves(e.children);
  }

  // Outside its schematic a written definition has its ports and nothing else
  // that is a port.
  lemma {:induction false} OutsideOfDesign(num: Numerals, d: Design)
    requires Drawn(d.conductors)
    ensures var ports := PortElements(num, "port", SortBy(d.ports, PORT_NAME));
            var outside := Outside(DesignElement(num, d).children);
            (forall e :: e in ports ==> e in outside)
            && forall e :: e in outside && Fold(e.tag) == "port" ==> e in ports
  {
    var kids := DesignElement(num, d).children;
    var a, b, s, t, z := kids[0], kids[1], kids[2], kids[3], kids[4];
    assert kids == [a, b, s, t, z];
    DesignWords();
    OutsideList(a, b, s, t, z);
    FlatIter(a);
    LeafIter(b);
    FlatIter(s);
    LeafIter(t);
    SvgHolds(num, d, s.children);
    assert a.children == [Element("param", map[Name := "Description", Value := ""], [])];
    forall e | e in Iter(a) ensures Fold(e.tag) != "port" {
      assert e == a || e == a.children[0];
    }
  }

  lemma {:induction false} SvgHolds(num: Numerals, d: Design, kids: seq<Element>)
    requires kids == PortElements(num, "port", SortBy(d.ports, PORT_NAME)) + [Element("rect", map[], [])]
    ensures var ports := PortElements(num, "port", SortBy(d.ports, PORT_NAME));
            (forall e :: e in ports ==> e in kids) && forall e :: e in kids && Fold(e.tag) == "port" ==> e in ports
  {
    DesignWords();
  }

  lemma {:induction false} DesignPasses(num: Numerals, d: Design)
    requires Exact(num) && Drawn(d.conductors) && KeyedOnce(d.ports, PORT_NAME)
    ensures DesignMatches(num, DesignElement(num, d), d)
  {
    var e := DesignElement(num, d);
    var ports := PortElements(num, "port", SortBy(d.ports, PORT_NAME));
    OutsideOfDesign(num, d);
    PortElementsHold(num, "port", d.ports, ports);
    DesignWords();
    FoldedWords();
    var elements := [e] + Outside(e.children);
    forall p | p in elements && Fold(p.tag) == "port"
      ensures exists q :: q in d.ports && p == PortElement(num, "port", q)
    {
      assert p in ports;
    }
    PortsPass(num, "port", elements, d.ports);
    assert Fold(e.children[4].tag) == "schematic";
  }

  // ---- all definitions ----

  ghost predicate WellDesigned(c: Case) {
    DrawnDesigns(c.designs) && KeyedOnce(c.designs, DESIGN_NAME)
    && forall d :: d in c.designs ==> Fold(d.name) !in ["station", "main"] && KeyedOnce(d.ports, PORT_NAME)
  }

  lemma {:induction false} DesignIsOwn(num: Numerals, d: Design)
    requires Drawn(d.conductors) && Fold(d.name) !in ["station", "main"]
    ensures IsOwn(DesignElement(num, d)) && GetOr(DesignElement(num, d), Name, "") == d.name
  {
    DesignWords();
  }

  lemma {:induction false} OwnAmong(kept: seq<Element>, k: nat, made: seq<Element>, e: Element)
    requires k <= |kept| && forall x :: x in kept ==> !IsOwn(x)
    ensures e in kept[..k] + made + kept[k..] && IsOwn(e) <==> e in made && IsOwn(e)
  {}

  lemma {:induction false} MadeDesigns(num: Numerals, ds: seq<Design>, e: Element)
    requires DrawnDesigns(ds)
    ensures e in DesignElements(num, ds) <==> exists d :: d in ds && Drawn(d.conductors) && e == DesignElement(num, d)
  {
    var made := DesignElements(num, ds);
    if e in made {
      var i :| 0 <= i < |made| && made[i] == e;
      assert ds[i] in ds;
    }
    if d :| d in ds && Drawn(d.conductors) && e == DesignElement(num, d) {
      var i :| 0 <= i < |ds| && ds[i] == d;
      assert made[i] == e;
    }
  }

  lemma {:induction false} OwnWritten(num: Numerals, c: Case, elements: seq<Element>, e: Element)
    requires WellDesigned(c)
    ensures e in ReplaceDefinitions(num, c, elements) && IsOwn(e) <==>
            exists d :: d in c.designs && Drawn(d.conductors) && e == DesignElement(num, d)
  {
    var sorted := SortBy(c.designs, DESIGN_NAME);
    SortedDesigns(c.designs);
    SortByKeeps(c.designs, DESIGN_NAME);
    KeptHasNone(elements);
    OwnAmong(Kept(elements), BeforeMain(Kept(elements)), DesignElements(num, sorted), e);
    MadeDesigns(num, sorted, e);
    if d :| d in c.designs && Drawn(d.conductors) && e == DesignElement(num, d) { DesignIsOwn(num, d); }
  }

  // The written definitions pass, whatever the seed held.
  lemma {:induction false} WrittenDefinitionsPass(num: Numerals, c: Case, elements: seq<Element>)
    requires Exact(num) && WellDesigned(c)
    ensures AuditDefinitions(num, c, ReplaceDefinitions(num, c, elements))
  {
    var written := ReplaceDefinitions(num, c, elements);
    var observed, expected := OwnByName(written), ByKey(c.designs, DESIGN_NAME);
    forall name | name in observed ensures name in expected {
      OwnSource(written, name);
      OwnWritten(num, c, elements, observed[name]);
      var d :| d in c.designs && Drawn(d.conductors) && observed[name] == DesignElement(num, d);
      DesignIsOwn(num, d);
      ByKeyHolds(c.designs, DESIGN_NAME, d);
    }
    forall name | name in expected ensures name in observed && DesignMatches(num, observed[name], expected[name]) {
      ByKeySource(c.designs, DESIGN_NAME, name);
      var d := expected[name];
      OwnWritten(num, c, elements, DesignElement(num, d));
      DesignIsOwn(num, d);
      OwnHolds(written, DesignElement(num, d));
      OwnSource(written, name);
      OwnWritten(num, c, elements, observed[name]);
      var o :| o in c.designs && Drawn(o.conductors) && observed[name] == DesignElement(num, o);
      DesignIsOwn(num, o);
      DesignPasses(num, d);
    }
  }

  // ---- the project ----

  // The first schematic child gets these children.
  function PutSchematic(kids: seq<Element>, canvas: seq<Element>): Option<seq<Element>> {
    if kids == [] then None
    else if Fold(kids[0].tag) == "schematic" then Some([Element(kids[0].tag, kids[0].attrs, canvas)] + kids[1..])
    else
      var rest := PutSchematic(kids[1..], canvas);
      if rest.None? then None else Some([kids[0]] + rest.value)
  }

  function SchematicOf(kids: seq<Element>): Option<seq<Element>> {
    if kids == [] then None
    else if Fold(kids[0].tag) == "schematic" then Some(kids[0].children)
    else SchematicOf(kids[1..])
  }

  lemma {:induction false} SchematicPut(kids: seq<Element>, canvas: seq<Element>)
    requires PutSchematic(kids, canvas).Some?
    ensures SchematicOf(PutSchematic(kids, canvas).value) == Some(canvas)
  {
    if Fold(kids[0].tag) == "schematic" {
      assert PutSchematic(kids, canvas).value[0].children == canvas;
    } else {
      SchematicPut(kids[1..], canvas);
      var rest := PutSchematic(kids[1..], canvas).value;
      assert ([kids[0]] + rest)[1..] == rest;
    }
  }

  // _replace_main_schematic and _main_schematic on the definitions.
  function PutCanvas(definitions: seq<Element>, canvas: seq<Element>): Option<seq<Element>> {
    var k := BeforeMain(definitions);
    if k == |definitions| then None else
      var main := definitions[k];
      var kids := PutSchematic(main.children, canvas);
      if kids.None? then None else Some(definitions[k := Element(main.tag, main.attrs, kids.value)])
  }

  function MainCanvas(definitions: seq<Element>): Option<seq<Element>> {
    var k := BeforeMain(definitions);
    if k == |definitions| then None else SchematicOf(definitions[k].children)
  }

  lemma {:induction false} BeforeMainIs(definitions: seq<Element>, k: nat)
    requires k < |definitions| && IsMain(definitions[k]) && forall i :: 0 <= i < k ==> !IsMain(definitions[i])
    ensures BeforeMain(definitions) == k
  {
    if k > 0 {
      assert !IsMain(definitions[0]);
      BeforeMainIs(definitions[1..], k - 1);
    }
  }

  lemma {:induction false} BeforeMainFinds(definitions: seq<Element>)
    ensures var k := BeforeMain(definitions);
            (k < |definitions| ==> IsMain(definitions[k])) && forall i :: 0 <= i < k ==> !IsMain(definitions[i])
  {
    if definitions != [] && !IsMain(definitions[0]) {
      BeforeMainFinds(definitions[1..]);
      var k := BeforeMain(definitions[1..]);
      forall i | 0 <= i < k + 1 ensures !IsMain(definitions[i]) {
        if i > 0 { assert definitions[i] == definitions[1..][i - 1]; }
      }
    }
  }

  lemma {:induction false} CanvasPut(definitions: seq<Element>, canvas: seq<Element>)
    requires PutCanvas(definitions, canvas).Some?
    ensures MainCanvas(PutCanvas(definitions, canvas).value) == Some(canvas)
    ensures OwnByName(PutCanvas(definitions, canvas).value) == OwnByName(definitions)
  {
    var k := BeforeMain(definitions);
    var main := definitions[k];
    var kids := PutSchematic(main.children, canvas).value;
    var put := Element(main.tag, main.attrs, kids);
    BeforeMainFinds(definitions);
    SchematicPut(main.children, canvas);
    assert IsMain(put) by { assert GetOr(put, Name, "") == GetOr(main, Name, ""); }
    BeforeMainIs(definitions[k := put], k);
    SameOwn(definitions, definitions[k := put], k, |definitions|);
  }

  // Exchanging one element that is not a case definition changes no entry.
  lemma {:induction false} SameOwn(a: seq<Element>, b: seq<Element>, k: nat, n: nat)
    requires k < |a| == |b| && n <= |a| && !IsOwn(a[k]) && !IsOwn(b[k])
    requires forall i :: 0 <= i < |a| && i != k ==> a[i] == b[i]
    ensures OwnByName(a[..n]) == OwnByName(b[..n])
    ensures n == |a| ==> OwnByName(a) == OwnByName(b)
  {
    if n > 0 {
      SameOwn(a, b, k, n - 1);
      assert a[..n][..n - 1] == a[..n - 1] && b[..n][..n - 1] == b[..n - 1];
    }
    assert a[..|a|] == a && b[..|b|] == b;
  }

  // generate_cases for one case, from a seed already carrying the case's name;
  // None for a seed without Main, its schematic or its hierarchy call.
  function Write(num: Numerals, c: Case, seed: Project): Option<Project>
    requires Drawn(c.conductors) && DrawnDesigns(c.designs)
  {
    var definitions := PutCanvas(ReplaceDefinitions(num, c, seed.definitions), Canvas(num, c));
    var hierarchy := PutMain(seed.hierarchy, MainCalls(c, SortBy(c.components, COMPONENT_ID)));
    if definitions.None? || hierarchy.None? then None
    else Some(Project(c.project, definitions.value, hierarchy.value))
  }

  // audit_case
  predicate Audit(num: Numerals, c: Case, p: Project) {
    p.name == c.project && MainCanvas(p.definitions).Some? && AuditCanvas(num, c, MainCanvas(p.definitions).value)
    && AuditDefinitions(num, c, p.definitions) && AuditHierarchy(c, p.hierarchy)
  }

  // A project generated from a well-formed recipe passes its own audit exactly
  // when the seed makes no stray call of a local definition.
  lemma {:induction false} WrittenProjectPasses(num: Numerals, c: Case, seed: Project)
    requires Exact(num) && WellFormed(c) && WellDesigned(c) && Write(num, c, seed).Some?
    ensures PutMain(seed.hierarchy, []).Some?
    ensures Audit(num, c, Write(num, c, seed).value) <==> StrayCalls(c, seed.hierarchy) <= ExpectedCalls(c)
  {
    PutMainAlways(seed.hierarchy, MainCalls(c, SortBy(c.components, COMPONENT_ID)));
    var definitions := ReplaceDefinitions(num, c, seed.definitions);
    CanvasPut(definitions, Canvas(num, c));
    WrittenCanvasPasses(num, c);
    WrittenDefinitionsPass(num, c, seed.definitions);
    WrittenHierarchyPasses(c, seed.hierarchy);
  }

  predicate SamePorts(x: Design, y: Design) { ByKey(x.ports, PORT_NAME) == ByKey(y.ports, PORT_NAME) }

  // A project that passes for two cases has the same ports in every local
  // definition and the same hierarchy calls in both, besides what its canvas
  // fixes.
  lemma {:induction false} AcceptedProjectFixes(num: Numerals, c: Case, d: Case, p: Project)
    requires Audit(num, c, p) && Audit(num, d, p)
    ensures c.project == d.project
    ensures ByKey(c.conductors, CONDUCTOR_ID) == ByKey(d.conductors, CONDUCTOR_ID)
    ensures ByKey(c.labels, LABEL_ID) == ByKey(d.labels, LABEL_ID)
    ensures ByKey(c.components, COMPONENT_ID).Keys == ByKey(d.components, COMPONENT_ID).Keys
    ensures forall id :: id in ByKey(c.components, COMPONENT_ID) ==>
              SameComponent(ByKey(c.components, COMPONENT_ID)[id], ByKey(d.components, COMPONENT_ID)[id])
    ensures ByKey(c.designs, DESIGN_NAME).Keys == ByKey(d.designs, DESIGN_NAME).Keys
    ensures forall name :: name in ByKey(c.designs, DESIGN_NAME) ==>
              SamePorts(ByKey(c.designs, DESIGN_NAME)[name], ByKey(d.designs, DESIGN_NAME)[name])
    ensures ExpectedCalls(c) == ExpectedCalls(d)
  {
    AcceptedCanvasFixes(num, c, d, MainCanvas(p.definitions).value);
    var observed, m, o := OwnByName(p.definitions), ByKey(c.designs, DESIGN_NAME), ByKey(d.designs, DESIGN_NAME);
    forall name | name in m ensures SamePorts(m[name], o[name]) {
      PortsFixed(num, [observed[name]] + Outside(observed[name].children), m[name].ports, o[name].ports);
    }
    SameLocals(c, d);
    SameLocals(d, c);
    assert LocalCalls(c, Iter(p.hierarchy)) == LocalCalls(d, Iter(p.hierarchy));
  }

  lemma {:induction false} SameLocals(c: Case, d: Case)
    requires ByKey(c.designs, DESIGN_NAME).Keys == ByKey(d.designs, DESIGN_NAME).Keys
    ensures forall name :: IsLocal(c, name) ==> IsLocal(d, name)
  {
    forall name | IsLocal(c, name) ensures IsLocal(d, name) {
      var i :| 0 <= i < |c.designs| && Fold(c.designs[i].name) == Fold(name);
      ByKeyHolds(c.designs, DESIGN_NAME, c.designs[i]);
      ByKeySource(d.designs, DESIGN_NAME, c.designs[i].name);
      var j :| 0 <= j < |d.designs| && d.designs[j] == ByKey(d.designs, DESIGN_NAME)[c.designs[i].name];
    }
  }

  // ---- a seed whose project is refused ----

  const LONE_DESIGN := Design("d", [], [])
  const LONE_CASE := Case("p", [LONE_DESIGN], [], [], [])
  const MAIN_DEFINITION := Element("Definition", map[Name := "Main"], [Element("schematic", map[], [])])
  const MAIN_CALL := Element("call", map[Name := "p" + ":" + "Main"], [])
  const STRAY_CALL := Element("call", map[Name := "p" + ":" + "d", Link := "1"], [])
  const STRAY_SEED := Project("p", [MAIN_DEFINITION], Element("hierarchy", map[], [MAIN_CALL, STRAY_CALL]))

  lemma {:induction false} LoneCaseIsFine()
    ensures WellFormed(LONE_CASE) && WellDesigned(LONE_CASE) && ExpectedCalls(LONE_CASE) == {}
    ensures IsLocal(LONE_CASE, "d")
  {
    assert |Fold("d")| == 1;
    assert LONE_CASE.designs[0] == LONE_DESIGN;
  }

  lemma {:induction false} MainIsMain()
    ensures IsMain(MAIN_DEFINITION) && !IsOwn(MAIN_DEFINITION)
  {
    DesignWords();
    assert Fold("Main") == "main";
  }

  lemma {:induction false} MainAlone(main: Element)
    requires IsMain(main) && !IsOwn(main)
    ensures Kept([main]) == [main] && BeforeMain([main]) == 0
  {
    assert Kept([main][1..]) == [];
  }

  lemma {:induction false} StrayWrites(num: Numerals)
    ensures WellFormed(LONE_CASE) && WellDesigned(LONE_CASE)
    ensures PutCanvas(ReplaceDefinitions(num, LONE_CASE, [MAIN_DEFINITION]), Canvas(num, LONE_CASE)).Some?
  {
    LoneCaseIsFine();
    MainIsMain();
    DesignWords();
    var own := DesignElement(num, LONE_DESIGN);
    DesignIsOwn(num, LONE_DESIGN);
    MainAlone(MAIN_DEFINITION);
    SortOne(LONE_DESIGN, DESIGN_NAME);
    var definitions := ReplaceDefinitions(num, LONE_CASE, [MAIN_DEFINITION]);
    assert DesignElements(num, [LONE_DESIGN]) == [own] && definitions == [own, MAIN_DEFINITION];
    BeforeMainIs(definitions, 1);
  }

  lemma {:induction false} StrayHierarchy(kids: seq<Element>)
    ensures PutMain(STRAY_SEED.hierarchy, kids)
         == Some(Element("hierarchy", map[], [Element("call", MAIN_CALL.attrs, kids), STRAY_CALL]))
    ensures CallName(STRAY_CALL) == "d"
  {
    LastPartAfter("p", "Main");
    LastPartAfter("p", "d");
    assert IsMainCall(MAIN_CALL) && !IsMainCall(STRAY_SEED.hierarchy);
    var calls, first := STRAY_SEED.hierarchy.children, Element("call", MAIN_CALL.attrs, kids);
    assert PutMain(MAIN_CALL, kids) == Some(first);
    assert calls[0] == MAIN_CALL && [first] + calls[1..] == [first, STRAY_CALL];
    assert PutMainIn(calls, kids) == Some([first, STRAY_CALL]);
  }

  lemma {:induction false} StrayIsSeen()
    ensures PutMain(STRAY_SEED.hierarchy, []).Some? && StrayCalls(LONE_CASE, STRAY_SEED.hierarchy) != {}
  {
    LoneCaseIsFine();
    StrayHierarchy([]);
    var written := PutMain(STRAY_SEED.hierarchy, []).value;
    FlatIter(written);
    assert STRAY_CALL in Iter(written) && ("1", Fold("d")) in StrayCalls(LONE_CASE, STRAY_SEED.hierarchy);
  }

  // A seed that calls the case's definition beside Main is written, and the
  // project then fails its own audit.
  lemma {:induction false} StrayCallIsRefused(num: Numerals)
    requires Exact(num)
    ensures WellFormed(LONE_CASE) && WellDesigned(LONE_CASE) && Write(num, LONE_CASE, STRAY_SEED).Some?
    ensures !Audit(num, LONE_CASE, Write(num, LONE_CASE, STRAY_SEED).value)
  {
    LoneCaseIsFine();
    StrayWrites(num);
    StrayHierarchy(MainCalls(LONE_CASE, SortBy(LONE_CASE.components, COMPONENT_ID)));
    StrayIsSeen();
    WrittenProjectPasses(num, LONE_CASE, STRAY_SEED);
  }
}
