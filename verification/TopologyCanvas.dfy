// The Main canvas as a whole: the written canvas passes, and a canvas passes
// for at most one recipe.
module TopologyCanvas {
  import opened Options
  import opened TopologyTree
  import opened TopologyWriter
  import opened TopologyAudit
  import opened TopologyRoundTrip

  // What the writer needs of a case for the auditor to accept what it wrote.
  ghost predicate WellFormed(c: Case) {
    Drawn(c.conductors)
    && KeyedOnce(c.components, COMPONENT_ID) && KeyedOnce(c.conductors, CONDUCTOR_ID) && KeyedOnce(c.labels, LABEL_ID)
    && (forall x :: x in c.components ==> Writable(c, x)) && (forall x :: x in c.labels ==> x.scope != "")
  }

  // The elements are made one for each item.
  ghost predicate MadeFrom<T(!new)>(elements: seq<Element>, items: seq<T>, make: T -> Element) {
    (forall x :: x in items ==> make(x) in elements)
      && forall e :: e in elements ==> exists x :: x in items && e == make(x)
  }

  lemma {:induction false} SortedMade<T(!new)>(elements: seq<Element>, items: seq<T>, key: T -> string,
          make: T -> Element)
    requires |elements| == |SortBy(items, key)|
    requires forall i :: 0 <= i < |elements| ==> elements[i] == make(SortBy(items, key)[i])
    ensures MadeFrom(elements, items, make)
  {
    var sorted := SortBy(items, key);
    SortByKeeps(items, key);
    forall x | x in items ensures make(x) in elements {
      var i :| 0 <= i < |sorted| && sorted[i] == x;
      assert elements[i] == make(x);
    }
    forall e | e in elements ensures exists x :: x in items && e == make(x) {
      var i :| 0 <= i < |elements| && elements[i] == e;
      assert sorted[i] in items;
    }
  }

  // One family of elements among others of other sorts.
  lemma {:induction false} FamilyAgrees<T(!new)>(sort: Sort, canvas: seq<Element>, family: seq<Element>,
          items: seq<T>, key: T -> string,
                              make: T -> Element)
    requires KeyedOnce(items, key) && MadeFrom(family, items, make)
    requires forall e :: e in family ==> e in canvas
    requires forall e :: e in canvas && Belongs(sort, e) ==> e in family
    requires forall x :: x in items ==> Belongs(sort, make(x)) && KeyOf(sort, make(x)) == key(x)
    ensures Observed(sort, canvas).Keys == ByKey(items, key).Keys
    ensures forall k :: k in ByKey(items, key) ==>
              ByKey(items, key)[k] in items && Observed(sort, canvas)[k] == make(ByKey(items, key)[k])
  {
    DictAgrees(sort, canvas, items, key, make);
  }

  function MakeConductor(num: Numerals, x: Conductor): Element {
    if x.vertices == [] then PARAMLIST else ConductorElement(num, x)
  }

  function ComponentFamily(num: Numerals, c: Case): seq<Element> {
    ComponentElements(num, c, SortBy(c.components, COMPONENT_ID))
  }

  function ConductorFamily(num: Numerals, c: Case): seq<Element>
    requires Drawn(c.conductors)
  {
    SortedDrawn(c.conductors);
    ConductorElements(num, SortBy(c.conductors, CONDUCTOR_ID))
  }

  function LabelFamily(num: Numerals, c: Case): seq<Element> { LabelElements(num, SortBy(c.labels, LABEL_ID)) }

  lemma {:induction false} ComponentsMade(num: Numerals, c: Case)
    requires WellFormed(c)
    ensures MadeFrom(ComponentFamily(num, c), c.components, (x: Component) => ComponentElement(num, c, x))
    ensures forall e ::
      e in ComponentFamily(num, c) ==> Belongs(Components, e) && !Belongs(Conductors, e) && !Belongs(Labels, e)
  {
    SortedMade(ComponentFamily(num, c), c.components, COMPONENT_ID, (x: Component) => ComponentElement(num, c, x));
    forall e | e in ComponentFamily(num, c)
      ensures Belongs(Components, e) && !Belongs(Conductors, e) && !Belongs(Labels, e)
    {
      var x :| x in c.components && e == ComponentElement(num, c, x);
      ComponentBelongs(num, c, x);
    }
  }

  lemma {:induction false} ConductorsMade(num: Numerals, c: Case)
    requires WellFormed(c)
    ensures MadeFrom(ConductorFamily(num, c), c.conductors, (x: Conductor) => MakeConductor(num, x))
    ensures forall e ::
      e in ConductorFamily(num, c) ==> Belongs(Conductors, e) && !Belongs(Components, e) && !Belongs(Labels, e)
  {
    SortedDrawn(c.conductors);
    SortedMade(ConductorFamily(num, c), c.conductors, CONDUCTOR_ID, (x: Conductor) => MakeConductor(num, x));
    forall e | e in ConductorFamily(num, c)
      ensures Belongs(Conductors, e) && !Belongs(Components, e) && !Belongs(Labels, e)
    {
      var x :| x in c.conductors && e == MakeConductor(num, x);
      ConductorBelongs(num, x);
    }
  }

  lemma {:induction false} LabelsMade(num: Numerals, c: Case)
    ensures MadeFrom(LabelFamily(num, c), c.labels, (x: Label) => LabelElement(num, x))
    ensures forall e ::
      e in LabelFamily(num, c) ==> Belongs(Labels, e) && !Belongs(Components, e) && !Belongs(Conductors, e)
  {
    SortedMade(LabelFamily(num, c), c.labels, LABEL_ID, (x: Label) => LabelElement(num, x));
    forall e | e in LabelFamily(num, c)
      ensures Belongs(Labels, e) && !Belongs(Components, e) && !Belongs(Conductors, e)
    {
      var x :| x in c.labels && e == LabelElement(num, x);
      LabelBelongs(num, x);
    }
  }

  lemma {:induction false} ParamlistIsNothing()
    ensures !Belongs(Components, PARAMLIST) && !Belongs(Conductors, PARAMLIST) && !Belongs(Labels, PARAMLIST)
    ensures Fold(PARAMLIST.tag) != "port"
  {
    assert Fold("paramlist") == "paramlist" && Fold("") == "";
    assert GetOr(PARAMLIST, Defn, "") == "";
    assert "paramlist"[1] == 'a';
  }

  // The canvas is its three families and the parameter list.
  lemma {:induction false} CanvasParts(num: Numerals, c: Case)
    requires WellFormed(c)
    ensures forall e :: e in Canvas(num, c) <==>
              e == PARAMLIST || e in ComponentFamily(num, c) || e in ConductorFamily(num, c) || e in LabelFamily(num, c)
  {
  }

  lemma {:induction false} ComponentsAccepted(num: Numerals, c: Case)
    requires Exact(num) && WellFormed(c)
    ensures AuditComponents(num, c, Canvas(num, c))
  {
    CanvasParts(num, c);
    ComponentsMade(num, c);
    ConductorsMade(num, c);
    LabelsMade(num, c);
    ParamlistIsNothing();
    forall x | x in c.components
      ensures Belongs(Components, ComponentElement(num, c, x))
        && KeyOf(Components, ComponentElement(num, c, x)) == COMPONENT_ID(x)
    {
      ComponentBelongs(num, c, x);
    }
    FamilyAgrees(Components, Canvas(num, c), ComponentFamily(num, c), c.components, COMPONENT_ID,
                 (x: Component) => ComponentElement(num, c, x));
    forall id | id in ByKey(c.components, COMPONENT_ID)
      ensures ComponentMatches(num, c, Observed(Components, Canvas(num, c))[id], ByKey(c.components, COMPONENT_ID)[id])
    {
      ComponentPasses(num, c, ByKey(c.components, COMPONENT_ID)[id]);
    }
  }

  lemma {:induction false} ConductorsAccepted(num: Numerals, c: Case)
    requires Exact(num) && WellFormed(c)
    ensures AuditConductors(num, c, Canvas(num, c))
  {
    CanvasParts(num, c);
    ComponentsMade(num, c);
    ConductorsMade(num, c);
    LabelsMade(num, c);
    ParamlistIsNothing();
    forall x | x in c.conductors
      ensures Belongs(Conductors, MakeConductor(num, x)) && KeyOf(Conductors, MakeConductor(num, x)) == CONDUCTOR_ID(x)
    {
      ConductorBelongs(num, x);
    }
    FamilyAgrees(Conductors, Canvas(num, c), ConductorFamily(num, c), c.conductors, CONDUCTOR_ID,
                 (x: Conductor) => MakeConductor(num, x));
    forall id | id in ByKey(c.conductors, CONDUCTOR_ID)
      ensures ConductorMatches(num, Observed(Conductors, Canvas(num, c))[id], ByKey(c.conductors, CONDUCTOR_ID)[id]) {
      ConductorPasses(num, ByKey(c.conductors, CONDUCTOR_ID)[id]);
    }
  }

  lemma {:induction false} LabelsAccepted(num: Numerals, c: Case)
    requires Exact(num) && WellFormed(c)
    ensures AuditLabels(num, c, Canvas(num, c))
  {
    CanvasParts(num, c);
    ComponentsMade(num, c);
    ConductorsMade(num, c);
    LabelsMade(num, c);
    ParamlistIsNothing();
    forall x | x in c.labels
      ensures Belongs(Labels, LabelElement(num, x)) && KeyOf(Labels, LabelElement(num, x)) == LABEL_ID(x)
    {
      LabelBelongs(num, x);
    }
    FamilyAgrees(Labels, Canvas(num, c), LabelFamily(num, c), c.labels, LABEL_ID, (x: Label) => LabelElement(num, x));
    forall id | id in ByKey(c.labels, LABEL_ID)
      ensures LabelMatches(num, Observed(Labels, Canvas(num, c))[id], ByKey(c.labels, LABEL_ID)[id]) {
      LabelPasses(num, ByKey(c.labels, LABEL_ID)[id]);
    }
  }

  // Whatever is written from a well-formed case passes its audit.
  lemma {:induction false} WrittenCanvasPasses(num: Numerals, c: Case)
    requires Exact(num) && WellFormed(c)
    ensures AuditCanvas(num, c, Canvas(num, c))
  {
    ComponentsAccepted(num, c);
    ConductorsAccepted(num, c);
    LabelsAccepted(num, c);
  }

  // ---- what an accepted canvas fixes ----

  lemma {:induction false} NetNameInjective(a: Net, b: Net)
    requires NetName(a) == NetName(b)
    ensures a == b
  {
    assert |NetName(Data)| == 4 && |NetName(Electrical)| == 10;
  }

  lemma {:induction false} PortFixed(num: Numerals, e: Element, p: Port, q: Port)
    requires PortMatches(num, e, p) && PortMatches(num, e, q) && p.name == q.name
    ensures p == q
  {
    if Get(e, Kind).Some? { NetNameInjective(p.kind, q.kind); }
  }

  lemma {:induction false} PortsFixed(num: Numerals, elements: seq<Element>, ports: seq<Port>, others: seq<Port>)
    requires PortsMatch(num, elements, ports) && PortsMatch(num, elements, others)
    ensures ByKey(ports, PORT_NAME) == ByKey(others, PORT_NAME)
  {
    var m, o := ByKey(ports, PORT_NAME), ByKey(others, PORT_NAME);
    forall name | name in m ensures m[name] == o[name] {
      ByKeySource(ports, PORT_NAME, name);
      ByKeySource(others, PORT_NAME, name);
      PortFixed(num, Observed(Ports, elements)[name], m[name], o[name]);
    }
  }

  // Two components agree in everything the audit reads.
  ghost predicate SameComponent(x: Component, y: Component) {
    x.id == y.id && x.location == y.location && x.orientation == y.orientation
    && Fold(LastPart(x.definition)) == Fold(LastPart(y.definition))
    && ByKey(x.ports, PORT_NAME) == ByKey(y.ports, PORT_NAME)
  }

  // A canvas accepted for two cases has the same identities in both, the same
  // conductors with their absolute vertices, the same labels, and components
  // that differ at most in name and in the letter case or scope of their
  // definition.
  lemma {:induction false} AcceptedCanvasFixes(num: Numerals, c: Case, d: Case, canvas: seq<Element>)
    requires AuditCanvas(num, c, canvas) && AuditCanvas(num, d, canvas)
    ensures ByKey(c.conductors, CONDUCTOR_ID) == ByKey(d.conductors, CONDUCTOR_ID)
    ensures ByKey(c.labels, LABEL_ID) == ByKey(d.labels, LABEL_ID)
    ensures ByKey(c.components, COMPONENT_ID).Keys == ByKey(d.components, COMPONENT_ID).Keys
    ensures forall id :: id in ByKey(c.components, COMPONENT_ID) ==>
              SameComponent(ByKey(c.components, COMPONENT_ID)[id], ByKey(d.components, COMPONENT_ID)[id])
  {
    ConductorsFixed(num, c, d, canvas);
    LabelsFixed(num, c, d, canvas);
    var m, o := ByKey(c.components, COMPONENT_ID), ByKey(d.components, COMPONENT_ID);
    forall id | id in m ensures SameComponent(m[id], o[id]) {
      ByKeySource(c.components, COMPONENT_ID, id);
      ByKeySource(d.components, COMPONENT_ID, id);
      PortsFixed(num, Observed(Components, canvas)[id].children, m[id].ports, o[id].ports);
    }
  }

  lemma {:induction false} ConductorsFixed(num: Numerals, c: Case, d: Case, canvas: seq<Element>)
    requires AuditConductors(num, c, canvas) && AuditConductors(num, d, canvas)
    ensures ByKey(c.conductors, CONDUCTOR_ID) == ByKey(d.conductors, CONDUCTOR_ID)
  {
    var m, o := ByKey(c.conductors, CONDUCTOR_ID), ByKey(d.conductors, CONDUCTOR_ID);
    forall id | id in m ensures m[id] == o[id] {
      ByKeySource(c.conductors, CONDUCTOR_ID, id);
      ByKeySource(d.conductors, CONDUCTOR_ID, id);
      NetNameInjective(m[id].namespace, o[id].namespace);
    }
  }

  lemma {:induction false} LabelsFixed(num: Numerals, c: Case, d: Case, canvas: seq<Element>)
    requires AuditLabels(num, c, canvas) && AuditLabels(num, d, canvas)
    ensures ByKey(c.labels, LABEL_ID) == ByKey(d.labels, LABEL_ID)
  {
    var m, o := ByKey(c.labels, LABEL_ID), ByKey(d.labels, LABEL_ID);
    forall id | id in m ensures m[id] == o[id] {
      ByKeySource(c.labels, LABEL_ID, id);
      ByKeySource(d.labels, LABEL_ID, id);
    }
  }
}
