// What is written passes the audit, and what passes the audit fixes the recipe.
module TopologyRoundTrip {
  import opened Options
  import opened TopologyTree
  import opened TopologyWriter
  import opened TopologyAudit

  // ---- vertices: written relative, read back absolute ----

  lemma {:induction false} VertexStep(num: Numerals, origin: Point, front: seq<Element>, e: Element, points: seq<Point>,
          v: Point)
    requires Exact(num) && VertexPoints(num, origin, front) == Some(points)
    requires e == Element("vertex", PointAttrs(num, (v.0 - origin.0, v.1 - origin.1)), [])
    ensures VertexPoints(num, origin, front + [e]) == Some(points + [v])
  {
    var kids := front + [e];
    PointReadsBack(num, e, (v.0 - origin.0, v.1 - origin.1));
    assert Fold("vertex") == "vertex";
    assert kids[..|kids| - 1] == front && kids[|kids| - 1] == e;
  }

  lemma {:induction false} TakeOneMore<T>(s: seq<T>, k: nat)
    requires k < |s|
    ensures s[..k + 1] == s[..k] + [s[k]]
  {}

  lemma {:induction false} VerticesReadBack(num: Numerals, vertices: seq<Point>, origin: Point, k: nat)
    requires Exact(num) && k <= |vertices|
    ensures VertexPoints(num, origin, VertexElements(num, vertices, origin)[..k]) == Some(vertices[..k])
  {
    var all := VertexElements(num, vertices, origin);
    if k > 0 {
      VerticesReadBack(num, vertices, origin, k - 1);
      VertexStep(num, origin, all[..k - 1], all[k - 1], vertices[..k - 1], vertices[k - 1]);
      TakeOneMore(all, k - 1);
      TakeOneMore(vertices, k - 1);
    }
  }

  lemma {:induction false} ShownIsText(num: Numerals, n: int)
    requires Exact(num)
    ensures num.show(n) != "" && num.read(num.show(n)) == Some(n)
  {
    var s := num.show(n);
    assert num.read(s) == Some(n);
    assert num.read("") != num.read(s);
  }

  // An element that carries a written point gives that point back.
  lemma {:induction false} PointReadsBack(num: Numerals, e: Element, p: Point)
    requires Exact(num)
    requires X in e.attrs && e.attrs[X] == num.show(p.0) && Y in e.attrs && e.attrs[Y] == num.show(p.1)
    ensures PointOf(num, e) == Some(p)
  {
    ShownIsText(num, p.0);
    ShownIsText(num, p.1);
    assert GetOr(e, X, "") == num.show(p.0) && GetOr(e, Y, "") == num.show(p.1);
  }

  lemma {:induction false} ConductorVertices(num: Numerals, x: Conductor)
    requires Exact(num) && x.vertices != []
    ensures AbsoluteVertices(num, ConductorElement(num, x)) == x.vertices
  {
    var e := ConductorElement(num, x);
    var all := VertexElements(num, x.vertices, x.vertices[0]);
    PointReadsBack(num, e, x.vertices[0]);
    VerticesReadBack(num, x.vertices, x.vertices[0], |x.vertices|);
    assert all[..|x.vertices|] == all && x.vertices[..|x.vertices|] == x.vertices;
  }

  lemma {:induction false} ConductorKind(num: Numerals, x: Conductor)
    requires x.vertices != []
    ensures IsBus(ConductorElement(num, x)) == x.bus
  {
    var e := ConductorElement(num, x);
    if x.bus {
      assert Fold(e.tag) == "bus" by { FoldedWords(); }
    } else {
      assert Fold(e.tag) == "wire" by { FoldedWords(); }
      assert GetOr(e, ClassId, "") == "WireOrthogonal";
      NoBusInWire();
    }
  }

  lemma {:induction false} ConductorNamespace(num: Numerals, x: Conductor)
    requires x.vertices != []
    ensures var e := ConductorElement(num, x);
            Fold(GetOr(e, Namespace, GetOr(e, Kind, "electrical"))) == NetName(x.namespace)
  {
    FoldedWords();
  }

  lemma {:induction false} ConductorPasses(num: Numerals, x: Conductor)
    requires Exact(num) && x.vertices != []
    ensures ConductorMatches(num, ConductorElement(num, x), x)
  {
    ConductorVertices(num, x);
    ConductorKind(num, x);
    ConductorNamespace(num, x);
  }

  lemma {:induction false} FoldedWords()
    ensures Fold("User") == "user" && Fold("Wire") == "wire" && Fold("Bus") == "bus" && Fold("Port") == "port"
    ensures Fold("port") == "port" && Fold("true") == "true" && Fold("Name") == "name"
    ensures Fold("electrical") == "electrical" && Fold("data") == "data"
  {
  }

  lemma {:induction false} NoBusInWire()
    ensures !Contains(Fold("WireOrthogonal"), "bus")
  {
    assert Fold("WireOrthogonal") == "wireorthogonal";
    NoLetter("wireorthogonal", "bus", 'b');
  }

  lemma {:induction false} NoLetter(s: string, part: string, c: char)
    requires c in part && c !in s
    ensures !Contains(s, part)
  {
    if s != "" { NoLetter(s[1..], part, c); }
    assert |part| <= |s| ==> c !in s[..|part|];
  }

  // ---- dictionaries ----

  ghost predicate KeyedOnce<T(!new)>(items: seq<T>, key: T -> string) {
    (forall x :: x in items ==> key(x) != "")
    && forall x, y :: x in items && y in items && key(x) == key(y) ==> x == y
  }

  // Elements made one for each item, and no other of their sort, are observed
  // under the items' own keys.
  lemma {:induction false} DictAgrees<T(!new)>(sort: Sort, elements: seq<Element>, items: seq<T>, key: T -> string,
          make: T -> Element)
    requires KeyedOnce(items, key)
    requires forall x :: x in items ==> make(x) in elements && Belongs(sort, make(x)) && KeyOf(sort, make(x)) == key(x)
    requires forall e :: e in elements && Belongs(sort, e) ==> exists x :: x in items && e == make(x)
    ensures Observed(sort, elements).Keys == ByKey(items, key).Keys
    ensures forall k :: k in ByKey(items, key) ==>
              ByKey(items, key)[k] in items && Observed(sort, elements)[k] == make(ByKey(items, key)[k])
  {
    var observed, expected := Observed(sort, elements), ByKey(items, key);
    forall k | k in observed ensures k in expected {
      ObservedSource(sort, elements, k);
      var x :| x in items && observed[k] == make(x);
      ByKeyHolds(items, key, x);
    }
    forall k | k in expected ensures k in observed && expected[k] in items && observed[k] == make(expected[k]) {
      ByKeySource(items, key, k);
      ObservedHolds(sort, elements, make(expected[k]));
      ObservedSource(sort, elements, k);
      var x :| x in items && observed[k] == make(x);
      assert key(x) == k == key(expected[k]);
    }
  }

  // ---- ports ----

  lemma {:induction false} PortPasses(num: Numerals, tag: string, p: Port)
    requires Exact(num)
    ensures PortMatches(num, PortElement(num, tag, p), p)
  {
    var e := PortElement(num, tag, p);
    PointReadsBack(num, e, p.offset);
    FoldedWords();
    assert Get(e, Kind) == Some(NetName(p.kind)) && Get(e, Dim) == Some(num.show(p.dimension));
    assert Get(e, Required) == if p.required then Some("true") else None;
    assert Get(e, Page) == if p.page then Some("true") else None;
  }

  // Elements holding exactly the written ports match the recipe's ports.
  lemma {:induction false} PortsPass(num: Numerals, tag: string, elements: seq<Element>, ports: seq<Port>)
    requires Exact(num) && KeyedOnce(ports, PORT_NAME) && Fold(tag) == "port"
    requires forall p :: p in ports ==> PortElement(num, tag, p) in elements
    requires forall e ::
      e in elements && Fold(e.tag) == "port" ==> exists p :: p in ports && e == PortElement(num, tag, p)
    ensures PortsMatch(num, elements, ports)
  {
    var make := (p: Port) => PortElement(num, tag, p);
    forall p | p in ports ensures KeyOf(Ports, make(p)) == PORT_NAME(p) {
      assert Get(make(p), Name) == Some(p.name);
    }
    DictAgrees(Ports, elements, ports, PORT_NAME, make);
    var expected := ByKey(ports, PORT_NAME);
    forall name | name in expected ensures PortMatches(num, Observed(Ports, elements)[name], expected[name]) {
      PortPasses(num, tag, expected[name]);
    }
  }

  lemma {:induction false} PortElementsHold(num: Numerals, tag: string, ports: seq<Port>, elements: seq<Element>)
    requires elements == PortElements(num, tag, SortBy(ports, PORT_NAME))
    ensures forall p :: p in ports ==> PortElement(num, tag, p) in elements
    ensures forall e :: e in elements ==> exists p :: p in ports && e == PortElement(num, tag, p)
  {
    var sorted := SortBy(ports, PORT_NAME);
    SortByKeeps(ports, PORT_NAME);
    forall p | p in ports ensures PortElement(num, tag, p) in elements {
      var i :| 0 <= i < |sorted| && sorted[i] == p;
      assert elements[i] == PortElement(num, tag, p);
    }
    forall e | e in elements ensures exists p :: p in ports && e == PortElement(num, tag, p) {
      var i :| 0 <= i < |elements| && elements[i] == e;
      assert sorted[i] in ports;
    }
  }

  // ---- components ----

  predicate LabelLike(definition: string) {
    EndsWith(Fold(definition), ":nodelabel") || EndsWith(Fold(definition), ":datalabel")
  }

  // What the writer needs of a component for the auditor to find it again.
  ghost predicate Writable(c: Case, x: Component) {
    (IsLocal(c, x.definition) ==> ':' !in x.definition)
    && !LabelLike(WrittenDefinition(c, x.definition)) && KeyedOnce(x.ports, PORT_NAME)
  }

  lemma {:induction false} ComponentDefinition(num: Numerals, c: Case, x: Component)
    requires Writable(c, x)
    ensures var e := ComponentElement(num, c, x);
            var definition := GetOr(e, Defn, GetOr(e, Definition, ""));
            definition == WrittenDefinition(c, x.definition)
            && LastPart(definition) == LastPart(x.definition)
            && (':' in x.definition ==> definition == x.definition) && (IsLocal(c, x.definition) ==> ':' in definition)
  {
    if IsLocal(c, x.definition) {
      LastPartAfter(c.project, x.definition);
      LastPartPlain(x.definition);
      var w := c.project + ":" + x.definition;
      assert w[|c.project|] == ':';
    }
  }

  lemma {:induction false} ComponentPorts(num: Numerals, c: Case, x: Component)
    requires Exact(num) && Writable(c, x)
    ensures PortsMatch(num, ComponentElement(num, c, x).children, x.ports)
  {
    var ports := PortElements(num, "Port", SortBy(x.ports, PORT_NAME));
    var kids := [PARAMLIST] + ports;
    PortElementsHold(num, "Port", x.ports, ports);
    FoldedWords();
    assert Fold("paramlist")[1] == 'a' && "port"[1] == 'o';
    forall e | e in kids && Fold(e.tag) == "port" ensures exists p :: p in x.ports && e == PortElement(num, "Port", p) {
      assert e in ports;
    }
    PortsPass(num, "Port", kids, x.ports);
  }

  lemma {:induction false} ComponentPlace(num: Numerals, c: Case, x: Component)
    requires Exact(num)
    ensures PointOf(num, ComponentElement(num, c, x)) == Some(x.location)
    ensures IntegerOf(num, ComponentElement(num, c, x), Orient, Orientation) == Some(x.orientation)
  {
    var e := ComponentElement(num, c, x);
    PointReadsBack(num, e, x.location);
    assert Get(e, Orient) == Some(num.show(x.orientation));
  }

  lemma {:induction false} ComponentPasses(num: Numerals, c: Case, x: Component)
    requires Exact(num) && Writable(c, x)
    ensures ComponentMatches(num, c, ComponentElement(num, c, x), x)
  {
    ComponentDefinition(num, c, x);
    ComponentPorts(num, c, x);
    ComponentPlace(num, c, x);
  }

  lemma {:induction false} ComponentBelongs(num: Numerals, c: Case, x: Component)
    requires !LabelLike(WrittenDefinition(c, x.definition))
    ensures var e := ComponentElement(num, c, x);
            Belongs(Components, e) && !Belongs(Conductors, e) && !Belongs(Labels, e) && KeyOf(Components, e) == x.id
  {
    var e := ComponentElement(num, c, x);
    FoldedWords();
    assert GetOr(e, Defn, "") == WrittenDefinition(c, x.definition);
  }

  lemma {:induction false} ConductorBelongs(num: Numerals, x: Conductor)
    requires x.vertices != []
    ensures var e := ConductorElement(num, x);
            Belongs(Conductors, e) && !Belongs(Components, e) && !Belongs(Labels, e) && KeyOf(Conductors, e) == x.id
  {
    var e := ConductorElement(num, x);
    FoldedWords();
    assert GetOr(e, Defn, "") == "" && Fold("") == "";
  }

  // ---- labels ----

  lemma {:induction false} LabelEnds()
    ensures EndsWith(Fold("master:datalabel"), ":datalabel") && EndsWith(Fold("master:nodelabel"), ":nodelabel")
  {
    FoldedLabels();
    assert "master:datalabel"[6..] == ":datalabel" && "master:nodelabel"[6..] == ":nodelabel";
  }

  lemma {:induction false} LabelBelongs(num: Numerals, x: Label)
    ensures var e := LabelElement(num, x);
            Belongs(Labels, e) && !Belongs(Components, e) && !Belongs(Conductors, e) && KeyOf(Labels, e) == x.id
  {
    var e := LabelElement(num, x);
    LabelEnds();
    assert GetOr(e, Defn, "") == if x.namespace.Data? then "master:datalabel" else "master:nodelabel";
    assert Fold(e.tag) == "user" by { FoldedWords(); }
  }

  lemma {:induction false} ContainsAfter(front: string, part: string)
    ensures Contains(front + part, part)
  {
    if front == "" {
      assert (front + part)[..|part|] == part;
    } else {
      ContainsAfter(front[1..], part);
      assert (front + part)[1..] == front[1..] + part;
    }
  }

  // A part whose first two characters never stand side by side does not occur.
  lemma {:induction false} NoPair(s: string, part: string)
    requires |part| >= 2 && forall i :: 0 <= i < |s| - 1 ==> !(s[i] == part[0] && s[i + 1] == part[1])
    ensures !Contains(s, part)
  {
    if s != "" {
      forall i | 0 <= i < |s[1..]| - 1 ensures !(s[1..][i] == part[0] && s[1..][i + 1] == part[1]) {
        assert s[1..][i] == s[i + 1] && s[1..][i + 1] == s[(i + 1) + 1];
      }
      NoPair(s[1..], part);
    }
    assert |part| <= |s| ==> s[..|part|][0] == s[0] && s[..|part|][1] == s[0 + 1];
  }

  lemma {:induction false} NoDataInNode()
    ensures !Contains("master:nodelabel", "datalabel")
  {
    NoPair("master:nodelabel", "datalabel");
  }

  lemma {:induction false} DataInData()
    ensures Contains("master:datalabel", "datalabel")
  {
    ContainsAfter("master:", "datalabel");
    assert "master:" + "datalabel" == "master:datalabel";
  }

  lemma {:induction false} FoldedLabels()
    ensures Fold("master:datalabel") == "master:datalabel" && Fold("master:nodelabel") == "master:nodelabel"
  {
  }

  lemma {:induction false} LabelNamespace(num: Numerals, x: Label)
    ensures var e := LabelElement(num, x); Contains(Fold(GetOr(e, Defn, e.tag)), "datalabel") <==> x.namespace.Data?
  {
    var e := LabelElement(num, x);
    FoldedLabels();
    var definition := GetOr(e, Defn, e.tag);
    if x.namespace.Data? {
      assert definition == "master:datalabel";
      DataInData();
    } else {
      assert definition == "master:nodelabel";
      NoDataInNode();
    }
  }

  lemma {:induction false} LabelNameReadsBack(num: Numerals, x: Label)
    ensures LabelName(LabelElement(num, x)) == x.name
  {
    var e := LabelElement(num, x);
    var parameter := Element("param", map[Name := "Name", Value := x.name], []);
    var list := Element("paramlist", map[], [parameter]);
    assert Iter(parameter) == [parameter];
    assert IterAll([parameter]) == [parameter];
    assert Iter(list) == [list] + [parameter];
    assert IterAll([list]) == [list, parameter];
    assert Iter(e) == [e] + [list, parameter];
    assert [list, parameter] == [list] + [parameter];
    FoldedWords();
    assert e.tag != "param" && list.tag != "param";
    NotTheName(e, [list, parameter]);
    NotTheName(list, [parameter]);
  }

  lemma {:induction false} NotTheName(e: Element, rest: seq<Element>)
    requires e.tag != "param"
    ensures LabelNameIn([e] + rest) == LabelNameIn(rest)
  {
    assert ([e] + rest)[1..] == rest;
  }

  lemma {:induction false} LabelPasses(num: Numerals, x: Label)
    requires Exact(num) && x.scope != ""
    ensures LabelMatches(num, LabelElement(num, x), x)
  {
    LabelNamespace(num, x);
    LabelNameReadsBack(num, x);
    PointReadsBack(num, LabelElement(num, x), x.location);
  }
}
