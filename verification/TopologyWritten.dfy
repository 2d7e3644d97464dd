// What the generator writes, element by element and place by place.
module TopologyWritten {
  import opened Options
  import opened TopologyTree
  import opened TopologyWriter
  import opened TopologyProject
  import opened TopologyDefinitions
  import opened TopologyMeaning
  import opened TopologyAccepted

  // ---- elements ----

  function Word(n: Net): string {
    match n
    case Electrical => "electrical"
    case Data => "data"
  }

  predicate PortReads(num: Numerals, tag: string, e: Element, p: Port) {
    e.tag == tag && e.children == [] && Attribute(e, Name) == p.name && Attribute(e, Kind) == Word(p.kind)
    && Attribute(e, Dim) == num.show(p.dimension)
    && Attribute(e, X) == num.show(p.offset.0) && Attribute(e, Y) == num.show(p.offset.1)
    && (if p.required then Attribute(e, Required) == "true" else Required !in e.attrs)
    && (if p.page then Attribute(e, Page) == "true" else Page !in e.attrs)
  }

  predicate Reads(num: Numerals, tag: string, elements: seq<Element>, ports: seq<Port>) {
    |elements| == |ports| && forall i :: 0 <= i < |ports| ==> PortReads(num, tag, elements[i], ports[i])
  }

  lemma {:induction false} PortWritten(num: Numerals, tag: string, p: Port)
    ensures PortReads(num, tag, PortElement(num, tag, p), p)
  {
    var e := PortElement(num, tag, p);
    assert Attribute(e, Name) == p.name && Attribute(e, Kind) == Word(p.kind);
    assert Required in e.attrs <==> p.required;
    assert Page in e.attrs <==> p.page;
  }

  lemma {:induction false} PortsWritten(num: Numerals, tag: string, ports: seq<Port>)
    ensures Reads(num, tag, PortElements(num, tag, ports), ports)
  {
    forall i | 0 <= i < |ports| ensures PortReads(num, tag, PortElements(num, tag, ports)[i], ports[i]) {
      PortWritten(num, tag, ports[i]);
    }
  }

  // A written component: its own attributes, then its ports by name.
  lemma {:induction false} ComponentWritten(num: Numerals, c: Case, x: Component)
    ensures var e := ComponentElement(num, c, x);
            && e.tag == "User" && Attribute(e, ClassId) == "UserCmp" && Attribute(e, Id) == x.id
            && Attribute(e, X) == num.show(x.location.0) && Attribute(e, Y) == num.show(x.location.1)
            && Attribute(e, Orient) == num.show(x.orientation)
            && Attribute(e, Defn) == (if Local(c, x.definition) then c.project + ":" + x.definition else x.definition)
            && Attribute(e, Name) == (if x.name == None || x.name == Some("") then Attribute(e, Defn) else x.name.value)
            && e.children != []
            && exists ports :: InOrder(ports, x.ports, PORT_NAME) && Reads(num, "Port", e.children[1..], ports)
  {
    var ports := SortBy(x.ports, PORT_NAME);
    assert IsLocal(c, x.definition) <==> Local(c, x.definition);
    SortByInOrder(x.ports, PORT_NAME);
    PortsWritten(num, "Port", ports);
    assert ComponentElement(num, c, x).children[1..] == PortElements(num, "Port", ports);
  }

  // A written conductor: at its first vertex, the vertices as offsets from it.
  lemma {:induction false} ConductorWritten(num: Numerals, x: Conductor)
    requires x.vertices != []
    ensures var e := ConductorElement(num, x);
            && e.tag == (if x.bus then "Bus" else "Wire")
            && Attribute(e, ClassId) == (if x.bus then "Bus" else "WireOrthogonal")
            && Attribute(e, Id) == x.id && Attribute(e, Namespace) == Word(x.namespace)
            && Attribute(e, X) == num.show(x.vertices[0].0) && Attribute(e, Y) == num.show(x.vertices[0].1)
            && |e.children| == |x.vertices|
            && forall i :: 0 <= i < |x.vertices| ==>
                 var v := e.children[i];
                 v.tag == "vertex" && Attribute(v, X) == num.show(x.vertices[i].0 - x.vertices[0].0)
                 && Attribute(v, Y) == num.show(x.vertices[i].1 - x.vertices[0].1)
  {}

  // A written label.
  lemma {:induction false} LabelWritten(num: Numerals, x: Label)
    ensures var e := LabelElement(num, x);
            && e.tag == "User" && Attribute(e, ClassId) == "UserCmp" && Attribute(e, Id) == x.id
            && Attribute(e, Defn) == (if x.namespace == Data then "master:datalabel" else "master:nodelabel")
            && Attribute(e, Name) == Attribute(e, Defn) && Attribute(e, Namespace) == Word(x.namespace)
            && Attribute(e, Scope) == x.scope
            && Attribute(e, X) == num.show(x.location.0) && Attribute(e, Y) == num.show(x.location.1)
            && At(e, [0, 0]).Some? && At(e, [0, 0]).value.tag == "param"
            && Attribute(At(e, [0, 0]).value, Name) == "Name" && Attribute(At(e, [0, 0]).value, Value) == x.name
  {
    var e := LabelElement(num, x);
    assert At(e, [0, 0]) == At(e.children[0], [0]) == Some(e.children[0].children[0]) by {
      assert [0, 0][1..] == [0] && [0][1..] == [];
      assert At(e.children[0].children[0], []) == Some(e.children[0].children[0]);
    }
  }

  // A written definition: its ports in its drawing, its conductors on its own
  // canvas.
  lemma {:induction false} DesignWritten(num: Numerals, d: Design)
    requires Drawn(d.conductors)
    ensures var e := DesignElement(num, d);
            && LocalDefinition(e) == (Fold(d.name) != "station" && Fold(d.name) != "main")
            && Attribute(e, Name) == d.name && SchematicAt(e.children, 4)
            && (exists ports :: InOrder(ports, d.ports, PORT_NAME) && e.children[2].children != []
                  && Reads(num, "port", e.children[2].children[..|e.children[2].children| - 1], ports))
            && exists conductors :: InOrder(conductors, d.conductors, CONDUCTOR_ID) && Drawn(conductors)
                 && e.children[4].children == [PARAMLIST] + ConductorElements(num, conductors)
  {
    var e := DesignElement(num, d);
    var ports := SortBy(d.ports, PORT_NAME);
    DesignWords();
    SortByInOrder(d.ports, PORT_NAME);
    SortByInOrder(d.conductors, CONDUCTOR_ID);
    SortedDrawn(d.conductors);
    PortsWritten(num, "port", ports);
    var drawing := e.children[2].children;
    assert drawing[..|drawing| - 1] == PortElements(num, "port", ports);
  }

  // ---- definitions ----

  // The seed keeps its other definitions, in their order.
  lemma {:induction false} KeptMeans(a: seq<Element>, e: Element)
    ensures Kept([]) == [] && Kept(a + [e]) == Kept(a) + if LocalDefinition(e) then [] else [e]
  {
    OwnIs(e);
    if a == [] {
      assert [] + [e] == [e] && [e][1..] == [];
    } else {
      KeptMeans(a[1..], e);
      assert (a + [e])[1..] == a[1..] + [e];
    }
  }

  // Main keeps its place among them, behind the definitions of the case.
  ghost predicate DefinitionsWritten(num: Numerals, c: Case, seed: seq<Element>, k: nat, s: nat, designs: seq<Design>,
                                     out: seq<Element>)
    requires Drawn(c.conductors)
  {
    var kept := Kept(seed);
    MainAt(kept, k) && SchematicAt(kept[k].children, s)
    && InOrder(designs, c.designs, DESIGN_NAME) && DrawnDesigns(designs)
    && var main, canvas := kept[k], kept[k].children[s];
       out == kept[..k] + DesignElements(num, designs)
              + [Element(main.tag, main.attrs,
                         main.children[s := Element(canvas.tag, canvas.attrs, Canvas(num, c))])] + kept[k + 1..]
  }

  lemma {:induction false} PutSchematicIs(kids: seq<Element>, canvas: seq<Element>, s: nat)
    requires SchematicAt(kids, s)
    ensures PutSchematic(kids, canvas) == Some(kids[s := Element(kids[s].tag, kids[s].attrs, canvas)])
  {
    var put := kids[s := Element(kids[s].tag, kids[s].attrs, canvas)];
    if s > 0 {
      assert Fold(kids[0].tag) != "schematic";
      PutSchematicIs(kids[1..], canvas, s - 1);
      assert put == [kids[0]] + kids[1..][s - 1 := put[s]];
    } else {
      assert put == [put[0]] + kids[1..];
    }
  }

  lemma {:induction false} PutSchematicFinds(kids: seq<Element>, canvas: seq<Element>) returns (s: nat)
    requires PutSchematic(kids, canvas).Some?
    ensures SchematicAt(kids, s)
  {
    s := 0;
    if Fold(kids[0].tag) != "schematic" {
      s := PutSchematicFinds(kids[1..], canvas);
      s := s + 1;
      forall j | 0 <= j < s ensures Fold(kids[j].tag) != "schematic" {
        if j > 0 { assert kids[j] == kids[1..][j - 1]; }
      }
    }
  }

  // Made definitions are none of them Main, so Main stays the first.
  lemma {:induction false} MainBehind(kept: seq<Element>, made: seq<Element>, k: nat)
    requires k == BeforeMain(kept) && forall i :: 0 <= i < |made| ==> !IsMain(made[i])
    ensures BeforeMain(kept[..k] + made + kept[k..]) == k + |made|
  {
    var all := kept[..k] + made + kept[k..];
    BeforeMainFinds(kept);
    BeforeMainFinds(all);
    forall i | 0 <= i < k + |made| ensures !IsMain(all[i]) {
      if i < k { assert all[i] == kept[i]; } else { assert all[i] == made[i - k]; }
    }
    if k < |kept| {
      assert all[k + |made|] == kept[k];
      BeforeMainIs(all, k + |made|);
    }
  }

  // Dropping the local definitions loses no Main.
  lemma {:induction false} KeptMain(seed: seq<Element>)
    ensures var k, m := BeforeMain(seed), BeforeMain(Kept(seed));
            && (k < |seed| <==> m < |Kept(seed)|) && (k < |seed| ==> seed[k] == Kept(seed)[m])
  {
    if seed != [] && !IsMain(seed[0]) {
      var rest := Kept(seed[1..]);
      KeptMain(seed[1..]);
      if IsOwn(seed[0]) {
        assert Kept(seed) == rest;
      } else {
        assert Kept(seed) == [seed[0]] + rest && ([seed[0]] + rest)[1..] == rest;
      }
    } else if seed != [] {
      assert Kept(seed)[0] == seed[0];
    }
  }

  // The seed has a Main definition, and the first has a schematic.
  ghost predicate HasCanvas(seed: seq<Element>) {
    exists k: nat, s: nat, canvas :: CanvasAt(seed, k, s, canvas)
  }

  lemma {:induction false} DesignsAreNotMain(num: Numerals, ds: seq<Design>)
    requires DrawnDesigns(ds) && forall i :: 0 <= i < |ds| ==> Fold(ds[i].name) != "main"
    ensures forall i :: 0 <= i < |ds| ==> !IsMain(DesignElements(num, ds)[i])
  {
    forall i | 0 <= i < |ds| ensures !IsMain(DesignElements(num, ds)[i]) {
      DesignWritten(num, ds[i]);
      OwnIs(DesignElement(num, ds[i]));
    }
  }

  // The case's designs in order, none of them Main.
  lemma {:induction false} DesignsInOrder(num: Numerals, c: Case) returns (designs: seq<Design>)
    requires DrawnDesigns(c.designs) && forall d :: d in c.designs ==> Fold(d.name) != "main"
    ensures InOrder(designs, c.designs, DESIGN_NAME) && DrawnDesigns(designs)
    ensures designs == SortBy(c.designs, DESIGN_NAME)
    ensures forall i :: 0 <= i < |designs| ==> !IsMain(DesignElements(num, designs)[i])
  {
    designs := SortBy(c.designs, DESIGN_NAME);
    SortedDesigns(c.designs);
    SortByInOrder(c.designs, DESIGN_NAME);
    SortByKeeps(c.designs, DESIGN_NAME);
    DesignsAreNotMain(num, designs);
  }

  // Putting a canvas behind other elements that are not Main.
  lemma {:induction false} CanvasGoes(kept: seq<Element>, made: seq<Element>, k: nat, canvas: seq<Element>)
    returns (s: nat)
    requires k == BeforeMain(kept) && forall i :: 0 <= i < |made| ==> !IsMain(made[i])
    ensures var out := PutCanvas(kept[..k] + made + kept[k..], canvas);
            && (out.Some? <==> k < |kept| && SchematicOf(kept[k].children).Some?)
            && (out.Some? ==>
                  && SchematicAt(kept[k].children, s)
                  && var main, was := kept[k], kept[k].children[s];
                     out.value == kept[..k] + made
                       + [Element(main.tag, main.attrs, main.children[s := Element(was.tag, was.attrs, canvas)])]
                       + kept[k + 1..])
  {
    var all := kept[..k] + made + kept[k..];
    var n := k + |made|;
    MainBehind(kept, made, k);
    s := 0;
    if k < |kept| {
      assert all[n] == kept[k];
      if SchematicOf(kept[k].children).Some? {
        s := SchematicFound(kept[k].children);
        PutSchematicIs(kept[k].children, canvas, s);
        var main := PutCanvas(all, canvas).value[n];
        assert all[n := main] == kept[..k] + made + [main] + kept[k + 1..];
      } else if PutSchematic(kept[k].children, canvas).Some? {
        s := PutSchematicFinds(kept[k].children, canvas);
        SchematicIs(kept[k].children, s);
      }
    }
  }

  lemma {:induction false} HasCanvasIs(seed: seq<Element>)
    ensures var k := BeforeMain(Kept(seed));
            HasCanvas(seed) <==> k < |Kept(seed)| && SchematicOf(Kept(seed)[k].children).Some?
  {
    KeptMain(seed);
    if k: nat, s: nat, canvas :| CanvasAt(seed, k, s, canvas) { CanvasIs(seed, canvas); }
    if MainCanvas(seed).Some? {
      CanvasIs(seed, MainCanvas(seed).value);
    }
  }

  lemma {:induction false} DefinitionsGo(num: Numerals, c: Case, seed: seq<Element>)
    requires Drawn(c.conductors) && DrawnDesigns(c.designs) && forall d :: d in c.designs ==> Fold(d.name) != "main"
    ensures var out := PutCanvas(ReplaceDefinitions(num, c, seed), Canvas(num, c));
            && (out.Some? <==> HasCanvas(seed))
            && (out.Some? ==>
                  exists k: nat, s: nat, designs :: DefinitionsWritten(num, c, seed, k, s, designs, out.value))
  {
    var kept := Kept(seed);
    var k := BeforeMain(kept);
    var designs := DesignsInOrder(num, c);
    var s := CanvasGoes(kept, DesignElements(num, designs), k, Canvas(num, c));
    HasCanvasIs(seed);
    MainIs(kept, k);
    var out := PutCanvas(ReplaceDefinitions(num, c, seed), Canvas(num, c));
    if out.Some? { assert DefinitionsWritten(num, c, seed, k, s, designs, out.value); }
  }

  // ---- hierarchy ----

  predicate MainCall(e: Element) { e.tag == "call" && LastPart(Attribute(e, Name)) == "Main" }

  // The first path comes earlier in the document.
  predicate Earlier(q: seq<nat>, p: seq<nat>) {
    p != [] && (q == [] || q[0] < p[0] || (q[0] == p[0] && Earlier(q[1..], p[1..])))
  }

  predicate MainCallAt(root: Element, path: seq<nat>) { At(root, path).Some? && MainCall(At(root, path).value) }

  ghost predicate FirstMainCall(root: Element, path: seq<nat>) {
    MainCallAt(root, path) && forall q: seq<nat> :: Earlier(q, path) ==> !MainCallAt(root, q)
  }

  // The document with other children at the path.
  function WithKids(e: Element, path: seq<nat>, kids: seq<Element>): Element
    requires At(e, path).Some?
    decreases |path|
  {
    if path == [] then Element(e.tag, e.attrs, kids) else
      Element(e.tag, e.attrs, e.children[path[0] := WithKids(e.children[path[0]], path[1..], kids)])
  }

  lemma {:induction false} PutMainGoes(e: Element, kids: seq<Element>) returns (path: seq<nat>)
    ensures PutMain(e, kids).Some? ==> FirstMainCall(e, path) && PutMain(e, kids).value == WithKids(e, path, kids)
    ensures PutMain(e, kids).None? ==> forall q: seq<nat> :: !MainCallAt(e, q)
    decreases e, 1
  {
    path := [];
    assert IsMainCall(e) <==> MainCall(e);
    if !IsMainCall(e) {
      var i, below := PutMainInGoes(e.children, kids);
      if PutMainIn(e.children, kids).Some? {
        path := [i] + below;
        assert path[1..] == below;
        forall q: seq<nat> | Earlier(q, path) ensures !MainCallAt(e, q) {
          if q != [] && q[0] < |e.children| { assert !MainCallAt(e.children[q[0]], q[1..]); }
        }
      } else {
        forall q: seq<nat> ensures !MainCallAt(e, q) {
          if q != [] && q[0] < |e.children| { assert !MainCallAt(e.children[q[0]], q[1..]); }
        }
      }
    }
  }

  lemma {:induction false} PutMainInGoes(elements: seq<Element>, kids: seq<Element>)
    returns (i: nat, path: seq<nat>)
    ensures PutMainIn(elements, kids).Some? ==>
              && i < |elements| && FirstMainCall(elements[i], path)
              && PutMainIn(elements, kids).value == elements[i := WithKids(elements[i], path, kids)]
              && forall j, q: seq<nat> :: 0 <= j < i ==> !MainCallAt(elements[j], q)
    ensures PutMainIn(elements, kids).None? ==>
              forall j, q: seq<nat> :: 0 <= j < |elements| ==> !MainCallAt(elements[j], q)
    decreases elements, 0
  {
    i, path := 0, [];
    if elements != [] {
      path := PutMainGoes(elements[0], kids);
      if PutMain(elements[0], kids).Some? {
        assert elements[0 := WithKids(elements[0], path, kids)] == [WithKids(elements[0], path, kids)] + elements[1..];
      } else {
        i, path := PutMainInGoes(elements[1..], kids);
        i := i + 1;
        if PutMainIn(elements[1..], kids).Some? {
          var put := WithKids(elements[i], path, kids);
          assert elements[i := put] == [elements[0]] + elements[1..][i - 1 := put];
        }
        forall j, q: seq<nat> | 0 <= j < |elements| && (j < i || PutMainIn(elements[1..], kids).None?)
          ensures !MainCallAt(elements[j], q)
        {
          if j > 0 { assert elements[j] == elements[1..][j - 1]; }
        }
      }
    }
  }

  // A call for each component of a local definition, in order.
  ghost predicate CallsWritten(c: Case, xs: seq<Component>, picks: seq<nat>, calls: seq<Element>) {
    |calls| == |picks|
    && (forall i, j :: 0 <= i < j < |picks| ==> picks[i] < picks[j])
    && (forall k: nat :: k in picks <==> k < |xs| && Designed(c, Fold(xs[k].definition)))
    && forall i :: 0 <= i < |picks| ==>
         && picks[i] < |xs| && calls[i].tag == "call" && calls[i].children == []
         && Attribute(calls[i], Link) == xs[picks[i]].id
         && Attribute(calls[i], Name) == c.project + ":" + xs[picks[i]].definition
  }

  lemma {:induction false} MainCallsWritten(c: Case, xs: seq<Component>) returns (picks: seq<nat>)
    ensures CallsWritten(c, xs, picks, MainCalls(c, xs))
  {
    picks := [];
    if xs != [] {
      var n := |xs| - 1;
      var front := MainCallsWritten(c, xs[..n]);
      assert IsLocal(c, xs[n].definition) <==> Designed(c, Fold(xs[n].definition));
      forall i | 0 <= i < |front| ensures front[i] < n { assert front[i] in front; }
      picks := front + if IsLocal(c, xs[n].definition) then [n] else [];
      forall k: nat ensures k in picks <==> k < |xs| && Designed(c, Fold(xs[k].definition)) {
        assert k in front <==> k < n && Designed(c, Fold(xs[..n][k].definition));
      }
    }
  }

  // ---- the project ----

  ghost predicate HierarchyWritten(c: Case, seed: Element, path: seq<nat>, xs: seq<Component>, picks: seq<nat>,
                                   calls: seq<Element>, out: Element) {
    FirstMainCall(seed, path) && InOrder(xs, c.components, COMPONENT_ID) && CallsWritten(c, xs, picks, calls)
    && out == WithKids(seed, path, calls)
  }

  // A seed is written into exactly when its first Main definition has a
  // schematic and its hierarchy a Main call; what is written is fixed.
  lemma {:induction false} WriteExactly(num: Numerals, c: Case, seed: Project)
    requires Drawn(c.conductors) && DrawnDesigns(c.designs) && forall d :: d in c.designs ==> Fold(d.name) != "main"
    ensures var out := Write(num, c, seed);
            && (out.Some? <==> HasCanvas(seed.definitions) && exists path: seq<nat> :: MainCallAt(seed.hierarchy, path))
            && (out.Some? ==>
                  && out.value.name == c.project
                  && (exists k: nat, s: nat, designs ::
                        DefinitionsWritten(num, c, seed.definitions, k, s, designs, out.value.definitions))
                  && exists path: seq<nat>, xs, picks, calls ::
                       HierarchyWritten(c, seed.hierarchy, path, xs, picks, calls, out.value.hierarchy))
  {
    var xs := SortBy(c.components, COMPONENT_ID);
    var calls := MainCalls(c, xs);
    DefinitionsGo(num, c, seed.definitions);
    var path := PutMainGoes(seed.hierarchy, calls);
    var picks := MainCallsWritten(c, xs);
    SortByInOrder(c.components, COMPONENT_ID);
    if PutMain(seed.hierarchy, calls).Some? {
      assert MainCallAt(seed.hierarchy, path);
      assert HierarchyWritten(c, seed.hierarchy, path, xs, picks, calls, PutMain(seed.hierarchy, calls).value);
    }
  }
}
