// What the audit of a topology project asks of each element, in the words of
// the project file.
module TopologyMeaning {
  import opened Options
  import opened TopologyTree
  import opened TopologyWriter
  import opened TopologyAudit

  // ---- dictionaries ----

  function Attribute(e: Element, a: Attr): string { if a in e.attrs then e.attrs[a] else "" }

  predicate LooksLabel(e: Element) {
    Fold(e.tag) == "label" || Fold(e.tag) == "nodelabel" || Fold(e.tag) == "datalabel"
    || Closes(Fold(Attribute(e, Defn)), ":nodelabel") || Closes(Fold(Attribute(e, Defn)), ":datalabel")
  }

  predicate Closes(s: string, end: string) { exists k :: 0 <= k <= |s| && s[k..] == end }

  predicate OfSort(sort: Sort, e: Element) {
    match sort
    case Components => (Fold(e.tag) == "user" || Fold(e.tag) == "component") && !LooksLabel(e)
    case Conductors => Fold(e.tag) == "wire" || Fold(e.tag) == "bus"
    case Labels => LooksLabel(e)
    case Ports => Fold(e.tag) == "port"
  }

  function Identity(sort: Sort, e: Element): string { Attribute(e, if sort == Ports then Name else Id) }

  // Element i is the last of its sort with this identity.
  predicate LastWith(sort: Sort, elements: seq<Element>, i: nat, key: string) {
    i < |elements| && OfSort(sort, elements[i]) && Identity(sort, elements[i]) == key != ""
    && forall j :: i < j < |elements| ==> !(OfSort(sort, elements[j]) && Identity(sort, elements[j]) == key)
  }

  predicate LastItem<T>(items: seq<T>, key: T -> string, k: nat) {
    k < |items| && forall j :: k < j < |items| ==> key(items[j]) != key(items[k])
  }

  ghost predicate HasElement(sort: Sort, elements: seq<Element>, id: string) {
    exists i: nat :: LastWith(sort, elements, i, id)
  }

  predicate HasItem<T>(items: seq<T>, key: T -> string, id: string) {
    exists k :: 0 <= k < |items| && key(items[k]) == id
  }

  // The elements of the sort have the identities of the items, and each item
  // holds of its element.
  ghost predicate Pairs<T>(sort: Sort, elements: seq<Element>, items: seq<T>, key: T -> string,
                           holds: (Element, T) -> bool) {
    (forall id :: HasElement(sort, elements, id) <==> HasItem(items, key, id))
    && forall i: nat, k: nat :: LastItem(items, key, k) && LastWith(sort, elements, i, key(items[k])) ==>
         holds(elements[i], items[k])
  }

  lemma {:induction false} ClosesIsEndsWith(s: string, end: string)
    ensures Closes(s, end) <==> EndsWith(s, end)
  {}

  lemma {:induction false} SortIs(sort: Sort, e: Element)
    ensures OfSort(sort, e) <==> Belongs(sort, e)
    ensures Identity(sort, e) == KeyOf(sort, e)
  {
    assert Attribute(e, Defn) == GetOr(e, Defn, "");
    ClosesIsEndsWith(Fold(Attribute(e, Defn)), ":nodelabel");
    ClosesIsEndsWith(Fold(Attribute(e, Defn)), ":datalabel");
  }

  lemma {:induction false} ObservedLast(sort: Sort, elements: seq<Element>, i: nat, key: string)
    requires LastWith(sort, elements, i, key)
    ensures key in Observed(sort, elements) && Observed(sort, elements)[key] == elements[i]
  {
    var n := |elements| - 1;
    SortIs(sort, elements[n]);
    if i < n {
      assert elements[..n][i] == elements[i];
      ObservedLast(sort, elements[..n], i, key);
    }
  }

  lemma {:induction false} LastStays(sort: Sort, elements: seq<Element>, i: nat, key: string)
    requires elements != []
    requires var n := |elements| - 1;
             LastWith(sort, elements[..n], i, key) && !(OfSort(sort, elements[n]) && Identity(sort, elements[n]) == key)
    ensures LastWith(sort, elements, i, key)
  {
    var n := |elements| - 1;
    assert elements[..n][i] == elements[i];
    forall j | i < j < |elements| ensures !(OfSort(sort, elements[j]) && Identity(sort, elements[j]) == key) {
      if j < n { assert elements[..n][j] == elements[j]; }
    }
  }

  lemma {:induction false} LastObserved(sort: Sort, elements: seq<Element>, key: string) returns (i: nat)
    requires key in Observed(sort, elements)
    ensures LastWith(sort, elements, i, key) && Observed(sort, elements)[key] == elements[i]
  {
    var n := |elements| - 1;
    SortIs(sort, elements[n]);
    if Belongs(sort, elements[n]) && KeyOf(sort, elements[n]) == key && key != "" {
      i := n;
    } else {
      i := LastObserved(sort, elements[..n], key);
      LastStays(sort, elements, i, key);
    }
  }

  lemma {:induction false} ByKeyLast<T>(items: seq<T>, key: T -> string, k: nat)
    requires LastItem(items, key, k)
    ensures key(items[k]) in ByKey(items, key) && ByKey(items, key)[key(items[k])] == items[k]
  {
    var n := |items| - 1;
    if k < n {
      assert items[..n][k] == items[k];
      ByKeyLast(items[..n], key, k);
      assert key(items[n]) != key(items[k]);
    }
  }

  lemma {:induction false} LastByKey<T>(items: seq<T>, key: T -> string, id: string) returns (k: nat)
    requires id in ByKey(items, key)
    ensures LastItem(items, key, k) && key(items[k]) == id && ByKey(items, key)[id] == items[k]
  {
    var n := |items| - 1;
    if key(items[n]) == id {
      k := n;
    } else {
      k := LastByKey(items[..n], key, id);
      assert items[..n][k] == items[k];
      forall j | k < j < |items| ensures key(items[j]) != key(items[k]) {
        if j < n { assert items[..n][j] == items[j]; }
      }
    }
  }

  ghost predicate DictsMatch<T>(sort: Sort, elements: seq<Element>, items: seq<T>, key: T -> string,
                                holds: (Element, T) -> bool) {
    Observed(sort, elements).Keys == ByKey(items, key).Keys
    && forall id :: id in ByKey(items, key) ==> holds(Observed(sort, elements)[id], ByKey(items, key)[id])
  }

  lemma {:induction false} KeysFound<T>(sort: Sort, elements: seq<Element>, items: seq<T>, key: T -> string, id: string)
    ensures id in Observed(sort, elements) <==> HasElement(sort, elements, id)
    ensures id in ByKey(items, key) <==> HasItem(items, key, id)
  {
    if id in Observed(sort, elements) { var i := LastObserved(sort, elements, id); }
    if i: nat :| LastWith(sort, elements, i, id) { ObservedLast(sort, elements, i, id); }
    if id in ByKey(items, key) { var k := LastByKey(items, key, id); }
    if k :| 0 <= k < |items| && key(items[k]) == id { ByKeyHolds(items, key, items[k]); }
  }

  // Comparing the two dictionaries is pairing the last elements and items.
  lemma {:induction false} DictsArePairs<T>(sort: Sort, elements: seq<Element>, items: seq<T>, key: T -> string,
          holds: (Element, T) -> bool)
    ensures DictsMatch(sort, elements, items, key, holds) <==> Pairs(sort, elements, items, key, holds)
  {
    var observed, expected := Observed(sort, elements), ByKey(items, key);
    forall id
      ensures id in observed <==> HasElement(sort, elements, id)
      ensures id in expected <==> HasItem(items, key, id)
    {
      KeysFound(sort, elements, items, key, id);
    }
    if DictsMatch(sort, elements, items, key, holds) {
      forall i: nat, k: nat | LastItem(items, key, k) && LastWith(sort, elements, i, key(items[k]))
        ensures holds(elements[i], items[k])
      {
        ObservedLast(sort, elements, i, key(items[k]));
        ByKeyLast(items, key, k);
      }
    }
    if Pairs(sort, elements, items, key, holds) {
      forall id ensures id in observed <==> id in expected {
        assert HasElement(sort, elements, id) <==> HasItem(items, key, id);
      }
      forall id | id in expected ensures id in observed && holds(observed[id], expected[id]) {
        var k := LastByKey(items, key, id);
        var i := LastObserved(sort, elements, id);
      }
    }
  }

  // ---- one element ----

  predicate ReadsAs(num: Numerals, e: Element, a: Attr, n: int) { num.read(Attribute(e, a)) == Some(n) }

  predicate SetTrue(e: Element, a: Attr) { a in e.attrs && Fold(e.attrs[a]) in ["1", "true", "yes", "on"] }

  // The first of two attributes that is there.
  predicate FirstReadsAs(num: Numerals, e: Element, a: Attr, b: Attr, n: int) {
    if a in e.attrs then num.read(e.attrs[a]) == Some(n) else b in e.attrs && num.read(e.attrs[b]) == Some(n)
  }

  // A port: place, kind, dimension and flags.
  predicate PortHolds(num: Numerals, e: Element, p: Port) {
    ReadsAs(num, e, X, p.offset.0) && ReadsAs(num, e, Y, p.offset.1)
    && (if Kind in e.attrs then Fold(e.attrs[Kind]) == (if p.kind == Data then "data" else "electrical")
        else (Fold(Attribute(e, Type)) in ["data", "real", "integer"] <==> p.kind == Data))
    && FirstReadsAs(num, e, Dim, Dimension, p.dimension)
    && (SetTrue(e, Required) <==> p.required) && (SetTrue(e, Page) <==> p.page)
  }

  ghost predicate PortsHold(num: Numerals, elements: seq<Element>, ports: seq<Port>) {
    Pairs(Ports, elements, ports, PORT_NAME, (e: Element, p: Port) => PortHolds(num, e, p))
  }

  function DefinitionOf(e: Element): string {
    if Attribute(e, Defn) != "" then Attribute(e, Defn) else Attribute(e, Definition)
  }

  predicate Local(c: Case, definition: string) { exists d :: d in c.designs && Fold(d.name) == Fold(definition) }

  // A component: definition with its scope, place, orientation and ports.
  ghost predicate ComponentHolds(num: Numerals, c: Case, e: Element, x: Component) {
    Fold(LastPart(DefinitionOf(e))) == Fold(LastPart(x.definition))
    && (':' in x.definition ==> Fold(DefinitionOf(e)) == Fold(x.definition))
    && (Local(c, x.definition) ==> ':' in DefinitionOf(e))
    && ReadsAs(num, e, X, x.location.0) && ReadsAs(num, e, Y, x.location.1)
    && FirstReadsAs(num, e, Orient, Orientation, x.orientation)
    && PortsHold(num, e.children, x.ports)
  }

  // A label: namespace, name, place and scope.
  predicate LabelHolds(num: Numerals, e: Element, x: Label) {
    (Within(Fold(if Attribute(e, Defn) != "" then Attribute(e, Defn) else e.tag), "datalabel") <==> x.namespace == Data)
    && LabelName(e) == x.name
    && ReadsAs(num, e, X, x.location.0) && ReadsAs(num, e, Y, x.location.1)
    && (if Attribute(e, Scope) != "" then Attribute(e, Scope) else "Main") == x.scope
  }

  predicate OccursAt(s: string, part: string, k: nat) { k + |part| <= |s| && s[k..k + |part|] == part }

  predicate Within(s: string, part: string) { exists k: nat :: k <= |s| && OccursAt(s, part, k) }

  // A conductor: bus or wire, namespace and absolute vertices.
  predicate ConductorHolds(num: Numerals, e: Element, x: Conductor) {
    (x.bus <==> Fold(e.tag) == "bus" || Within(Fold(Attribute(e, ClassId)), "bus"))
    && Fold(if Attribute(e, Namespace) != "" then Attribute(e, Namespace)
            else if Attribute(e, Kind) != "" then Attribute(e, Kind) else "electrical")
       == (if x.namespace == Data then "data" else "electrical")
    && AbsoluteVertices(num, e) == x.vertices
  }

  lemma {:induction false} OccursShifted(s: string, part: string, k: nat)
    requires s != ""
    ensures OccursAt(s[1..], part, k) <==> OccursAt(s, part, k + 1)
  {
    if k + 1 + |part| <= |s| { assert s[1..][k..k + |part|] == s[k + 1..k + 1 + |part|]; }
  }

  lemma {:induction false} WithinShifted(s: string, part: string)
    requires s != ""
    ensures Within(s, part) <==> OccursAt(s, part, 0) || Within(s[1..], part)
  {
    if Within(s, part) {
      var k: nat :| k <= |s| && OccursAt(s, part, k);
      if k > 0 { OccursShifted(s, part, k - 1); }
    }
    if Within(s[1..], part) {
      var k: nat :| k <= |s[1..]| && OccursAt(s[1..], part, k);
      OccursShifted(s, part, k);
    }
  }

  lemma {:induction false} WithinIsContains(s: string, part: string)
    ensures Contains(s, part) <==> Within(s, part)
  {
    assert OccursAt(s, part, 0) <==> |part| <= |s| && s[..|part|] == part;
    if s != "" {
      WithinIsContains(s[1..], part);
      WithinShifted(s, part);
    } else {
      assert Contains(s, part) <==> OccursAt(s, part, 0);
    }
  }

  lemma {:induction false} PointReads(num: Numerals, e: Element, p: Point)
    ensures PointOf(num, e) == Some(p) <==> ReadsAs(num, e, X, p.0) && ReadsAs(num, e, Y, p.1)
  {
    assert GetOr(e, X, "") == Attribute(e, X) && GetOr(e, Y, "") == Attribute(e, Y);
  }

  lemma {:induction false} PortExactly(num: Numerals, e: Element, p: Port)
    ensures PortMatches(num, e, p) <==> PortHolds(num, e, p)
  {
    PointReads(num, e, p.offset);
    assert GetOr(e, Type, "") == Attribute(e, Type);
  }

  lemma {:induction false} PortsExactly(num: Numerals, elements: seq<Element>, ports: seq<Port>)
    ensures PortsMatch(num, elements, ports) <==> PortsHold(num, elements, ports)
  {
    var holds := (e: Element, p: Port) => PortHolds(num, e, p);
    DictsArePairs(Ports, elements, ports, PORT_NAME, holds);
    forall e, p ensures PortMatches(num, e, p) <==> holds(e, p) { PortExactly(num, e, p); }
  }

  lemma {:induction false} ComponentExactly(num: Numerals, c: Case, e: Element, x: Component)
    ensures ComponentMatches(num, c, e, x) <==> ComponentHolds(num, c, e, x)
  {
    PointReads(num, e, x.location);
    PortsExactly(num, e.children, x.ports);
    assert GetOr(e, Defn, GetOr(e, Definition, "")) == DefinitionOf(e);
    assert IsLocal(c, x.definition) <==> Local(c, x.definition);
  }

  lemma {:induction false} ConductorExactly(num: Numerals, e: Element, x: Conductor)
    ensures ConductorMatches(num, e, x) <==> ConductorHolds(num, e, x)
  {
    WithinIsContains(Fold(Attribute(e, ClassId)), "bus");
    assert GetOr(e, ClassId, "") == Attribute(e, ClassId);
  }

  lemma {:induction false} LabelExactly(num: Numerals, e: Element, x: Label)
    ensures LabelMatches(num, e, x) <==> LabelHolds(num, e, x)
  {
    PointReads(num, e, x.location);
    WithinIsContains(Fold(GetOr(e, Defn, e.tag)), "datalabel");
  }

  // ---- the canvas ----

  // What the audit of the Main canvas asks for.
  ghost predicate CanvasHolds(num: Numerals, c: Case, canvas: seq<Element>) {
    Pairs(Components, canvas, c.components, COMPONENT_ID, (e: Element, x: Component) => ComponentHolds(num, c, e, x))
    && Pairs(Conductors, canvas, c.conductors, CONDUCTOR_ID, (e: Element, x: Conductor) => ConductorHolds(num, e, x))
    && Pairs(Labels, canvas, c.labels, LABEL_ID, (e: Element, x: Label) => LabelHolds(num, e, x))
  }

  lemma {:induction false} CanvasExactly(num: Numerals, c: Case, canvas: seq<Element>)
    ensures AuditCanvas(num, c, canvas) <==> CanvasHolds(num, c, canvas)
  {
    ghost var component := (e: Element, x: Component) => ComponentHolds(num, c, e, x);
    var conductor := (e: Element, x: Conductor) => ConductorHolds(num, e, x);
    var text := (e: Element, x: Label) => LabelHolds(num, e, x);
    DictsArePairs(Components, canvas, c.components, COMPONENT_ID, component);
    DictsArePairs(Conductors, canvas, c.conductors, CONDUCTOR_ID, conductor);
    DictsArePairs(Labels, canvas, c.labels, LABEL_ID, text);
    forall e, x ensures ComponentMatches(num, c, e, x) <==> component(e, x) { ComponentExactly(num, c, e, x); }
    forall e, x ensures ConductorMatches(num, e, x) <==> conductor(e, x) { ConductorExactly(num, e, x); }
    forall e, x ensures LabelMatches(num, e, x) <==> text(e, x) { LabelExactly(num, e, x); }
  }
}
