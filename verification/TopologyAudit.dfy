// Auditing a project's elements against the recipe they were written from.
module TopologyAudit {
  import opened Options
  import opened TopologyTree
  import opened TopologyWriter

  // The items by key; a later one replaces an earlier one.
  function ByKey<T>(items: seq<T>, key: T -> string): map<string, T> {
    if items == [] then map[] else
      var last := items[|items| - 1];
      ByKey(items[..|items| - 1], key)[key(last) := last]
  }

  lemma {:induction false} ByKeyHolds<T>(items: seq<T>, key: T -> string, x: T)
    requires x in items
    ensures key(x) in ByKey(items, key)
  {
    var n := |items| - 1;
    if x != items[n] {
      assert items == items[..n] + [items[n]];
      ByKeyHolds(items[..n], key, x);
    }
  }

  lemma {:induction false} ByKeySource<T>(items: seq<T>, key: T -> string, k: string)
    requires k in ByKey(items, key)
    ensures ByKey(items, key)[k] in items && key(ByKey(items, key)[k]) == k
  {
    var n := |items| - 1;
    if key(items[n]) != k { ByKeySource(items[..n], key, k); }
  }

  // The text occurs somewhere in s.
  predicate Contains(s: string, part: string) {
    (|part| <= |s| && s[..|part|] == part) || (s != "" && Contains(s[1..], part))
  }

  // _audit_port
  predicate PortMatches(num: Numerals, e: Element, p: Port) {
    PointOf(num, e) == Some(p.offset)
    && (if Get(e, Kind).Some? then Fold(Get(e, Kind).value) == NetName(p.kind)
        else (Fold(GetOr(e, Type, "")) in ["data", "real", "integer"] <==> p.kind.Data?))
    && IntegerOf(num, e, Dim, Dimension) == Some(p.dimension)
    && Flag(e, Required) == p.required && Flag(e, Page) == p.page
  }

  predicate PortsMatch(num: Numerals, elements: seq<Element>, ports: seq<Port>) {
    var observed, expected := Observed(Ports, elements), ByKey(ports, PORT_NAME);
    observed.Keys == expected.Keys
      && forall name :: name in expected ==> PortMatches(num, observed[name], expected[name])
  }

  // _audit_components, one component
  predicate ComponentMatches(num: Numerals, c: Case, e: Element, x: Component) {
    var definition := GetOr(e, Defn, GetOr(e, Definition, ""));
    Fold(LastPart(definition)) == Fold(LastPart(x.definition))
    && (':' in x.definition ==> Fold(definition) == Fold(x.definition))
    && PointOf(num, e) == Some(x.location)
    && IntegerOf(num, e, Orient, Orientation) == Some(x.orientation)
    && (IsLocal(c, x.definition) ==> ':' in definition)
    && PortsMatch(num, e.children, x.ports)
  }

  // _absolute_vertices over the children; None for a vertex that has no point.
  function VertexPoints(num: Numerals, origin: Point, kids: seq<Element>): Option<seq<Point>> {
    if kids == [] then Some([]) else
      var n := |kids| - 1;
      var front := VertexPoints(num, origin, kids[..n]);
      if Fold(kids[n].tag) != "vertex" then front
      else
        var p := PointOf(num, kids[n]);
        if front.None? || p.None? then None
        else Some(front.value + [(origin.0 + p.value.0, origin.1 + p.value.1)])
  }

  function AbsoluteVertices(num: Numerals, e: Element): seq<Point> {
    var origin := if PointOf(num, e).Some? then PointOf(num, e).value else (0, 0);
    var points := VertexPoints(num, origin, e.children);
    if points.Some? then points.value else []
  }

  predicate IsBus(e: Element) { Fold(e.tag) == "bus" || Contains(Fold(GetOr(e, ClassId, "")), "bus") }

  predicate ConductorMatches(num: Numerals, e: Element, x: Conductor) {
    IsBus(e) == x.bus
    && Fold(GetOr(e, Namespace, GetOr(e, Kind, "electrical"))) == NetName(x.namespace)
    && AbsoluteVertices(num, e) == x.vertices
  }

  function LabelNameIn(elements: seq<Element>): Option<string> {
    if elements == [] then None
    else if elements[0].tag == "param" && Fold(GetOr(elements[0], Name, "")) == "name"
      then Some(GetOr(elements[0], Value, ""))
    else LabelNameIn(elements[1..])
  }

  // _label_name
  function LabelName(e: Element): string {
    var found := LabelNameIn(Iter(e));
    if found.Some? then found.value else GetOr(e, Name, GetOr(e, Text, ""))
  }

  predicate LabelMatches(num: Numerals, e: Element, x: Label) {
    (Contains(Fold(GetOr(e, Defn, e.tag)), "datalabel") <==> x.namespace.Data?)
    && LabelName(e) == x.name && PointOf(num, e) == Some(x.location) && GetOr(e, Scope, "Main") == x.scope
  }

  predicate AuditComponents(num: Numerals, c: Case, canvas: seq<Element>) {
    var observed, expected := Observed(Components, canvas), ByKey(c.components, COMPONENT_ID);
    observed.Keys == expected.Keys
      && forall id :: id in expected ==> ComponentMatches(num, c, observed[id], expected[id])
  }

  predicate AuditConductors(num: Numerals, c: Case, canvas: seq<Element>) {
    var observed, expected := Observed(Conductors, canvas), ByKey(c.conductors, CONDUCTOR_ID);
    observed.Keys == expected.Keys && forall id :: id in expected ==> ConductorMatches(num, observed[id], expected[id])
  }

  predicate AuditLabels(num: Numerals, c: Case, canvas: seq<Element>) {
    var observed, expected := Observed(Labels, canvas), ByKey(c.labels, LABEL_ID);
    observed.Keys == expected.Keys && forall id :: id in expected ==> LabelMatches(num, observed[id], expected[id])
  }

  // The part of audit_case that reads the Main canvas.
  predicate AuditCanvas(num: Numerals, c: Case, canvas: seq<Element>) {
    AuditComponents(num, c, canvas) && AuditConductors(num, c, canvas) && AuditLabels(num, c, canvas)
  }
}
