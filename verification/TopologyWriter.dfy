// Recipes for the topology corpus, and the project elements written for them.
module TopologyWriter {
  import opened Options
  import opened TopologyTree

  datatype Net = Electrical | Data

  function NetName(n: Net): string { if n.Data? then "data" else "electrical" }

  datatype Port = Port(name: string, offset: Point, kind: Net, dimension: int, required: bool, page: bool)

  datatype Component = Component(id: string, definition: string, location: Point, orientation: int,
                                 name: Option<string>, ports: seq<Port>)

  datatype Conductor = Conductor(id: string, vertices: seq<Point>, namespace: Net, bus: bool)

  datatype Label = Label(id: string, name: string, location: Point, namespace: Net, scope: string)

  datatype Design = Design(name: string, ports: seq<Port>, conductors: seq<Conductor>)

  datatype Case = Case(project: string, designs: seq<Design>, components: seq<Component>, conductors: seq<Conductor>,
                       labels: seq<Label>)

  const PORT_NAME: Port -> string := (p: Port) => p.name
  const COMPONENT_ID: Component -> string := (c: Component) => c.id
  const CONDUCTOR_ID: Conductor -> string := (c: Conductor) => c.id
  const LABEL_ID: Label -> string := (l: Label) => l.id
  const DESIGN_NAME: Design -> string := (d: Design) => d.name

  predicate IsLocal(c: Case, definition: string) {
    exists i :: 0 <= i < |c.designs| && Fold(c.designs[i].name) == Fold(definition)
  }

  // A definition of the case is written with the project's scope.
  function WrittenDefinition(c: Case, definition: string): string {
    if IsLocal(c, definition) then c.project + ":" + definition else definition
  }

  function PointAttrs(num: Numerals, p: Point): map<Attr, string> { map[X := num.show(p.0), Y := num.show(p.1)] }

  function FlagAttrs(p: Port): map<Attr, string> {
    (if p.required then map[Required := "true"] else map[]) + (if p.page then map[Page := "true"] else map[])
  }

  // _append_definition_port and the port part of _append_component.
  function PortElement(num: Numerals, tag: string, p: Port): Element {
    Element(tag, map[Name := p.name, Kind := NetName(p.kind), Dim := num.show(p.dimension)]
                 + PointAttrs(num, p.offset) + FlagAttrs(p), [])
  }

  function PortElements(num: Numerals, tag: string, ports: seq<Port>): (r: seq<Element>)
    ensures |r| == |ports|
  {
    seq(|ports|, i requires 0 <= i < |ports| => PortElement(num, tag, ports[i]))
  }

  const PARAMLIST := Element("paramlist", map[], [])

  // _append_component
  function ComponentElement(num: Numerals, c: Case, x: Component): Element {
    var definition := WrittenDefinition(c, x.definition);
    Element("User",
            map[ClassId := "UserCmp", Name := if x.name.Some? && x.name.value != "" then x.name.value else definition,
                Id := x.id, Orient := num.show(x.orientation), Defn := definition] + PointAttrs(num, x.location),
            [PARAMLIST] + PortElements(num, "Port", SortBy(x.ports, PORT_NAME)))
  }

  function VertexElements(num: Numerals, vertices: seq<Point>, origin: Point): (r: seq<Element>)
    ensures |r| == |vertices|
  {
    seq(|vertices|, i requires 0 <= i < |vertices| =>
      Element("vertex", PointAttrs(num, (vertices[i].0 - origin.0, vertices[i].1 - origin.1)), []))
  }

  // _append_conductor: vertices are written relative to the first.
  function ConductorElement(num: Numerals, x: Conductor): Element
    requires x.vertices != []
  {
    Element(if x.bus then "Bus" else "Wire",
            map[ClassId := if x.bus then "Bus" else "WireOrthogonal", Id := x.id, Namespace := NetName(x.namespace)]
            + PointAttrs(num, x.vertices[0]),
            VertexElements(num, x.vertices, x.vertices[0]))
  }

  // _append_label
  function LabelElement(num: Numerals, x: Label): Element {
    var definition := if x.namespace.Data? then "master:datalabel" else "master:nodelabel";
    Element("User",
            map[ClassId := "UserCmp", Name := definition, Id := x.id, Defn := definition,
                Namespace := NetName(x.namespace), Scope := x.scope] + PointAttrs(num, x.location),
            [Element("paramlist", map[], [Element("param", map[Name := "Name", Value := x.name], [])])])
  }

  predicate Drawn(xs: seq<Conductor>) { forall i :: 0 <= i < |xs| ==> xs[i].vertices != [] }

  function ComponentElements(num: Numerals, c: Case, xs: seq<Component>): (r: seq<Element>)
    ensures |r| == |xs|
  {
    seq(|xs|, i requires 0 <= i < |xs| => ComponentElement(num, c, xs[i]))
  }

  function ConductorElements(num: Numerals, xs: seq<Conductor>): (r: seq<Element>)
    requires Drawn(xs)
    ensures |r| == |xs|
  {
    seq(|xs|, i requires 0 <= i < |xs| => ConductorElement(num, xs[i]))
  }

  function LabelElements(num: Numerals, xs: seq<Label>): (r: seq<Element>)
    ensures |r| == |xs|
  {
    seq(|xs|, i requires 0 <= i < |xs| => LabelElement(num, xs[i]))
  }

  lemma {:induction false} SortedDrawn(xs: seq<Conductor>)
    requires Drawn(xs)
    ensures Drawn(SortBy(xs, CONDUCTOR_ID))
  {
    SortByKeeps(xs, CONDUCTOR_ID);
    forall i | 0 <= i < |SortBy(xs, CONDUCTOR_ID)| ensures SortBy(xs, CONDUCTOR_ID)[i].vertices != [] {
      assert SortBy(xs, CONDUCTOR_ID)[i] in xs;
    }
  }

  // What _replace_main_schematic leaves on the Main canvas.
  function Canvas(num: Numerals, c: Case): seq<Element>
    requires Drawn(c.conductors)
  {
    SortedDrawn(c.conductors);
    [PARAMLIST] + ComponentElements(num, c, SortBy(c.components, COMPONENT_ID))
    + ConductorElements(num, SortBy(c.conductors, CONDUCTOR_ID)) + LabelElements(num, SortBy(c.labels, LABEL_ID))
  }

  // A schematic whose children are appended one by one.
  class Schematic {
    var children: seq<Element>

    constructor (children: seq<Element>)
      ensures this.children == children
    {
      this.children := children;
    }

    method AppendComponent(num: Numerals, c: Case, x: Component)
      modifies this
      ensures children == old(children) + [ComponentElement(num, c, x)]
    {
      var definition := x.definition;
      if IsLocal(c, definition) {
        definition := c.project + ":" + definition;
      }
      var kids := [PARAMLIST];
      var ports := SortBy(x.ports, PORT_NAME);
      ghost var all := PortElements(num, "Port", ports);
      for i := 0 to |ports|
        invariant kids == [PARAMLIST] + all[..i]
      {
        kids := kids + [PortElement(num, "Port", ports[i])];
      }
      assert all[..|ports|] == all;
      var attrs := map[ClassId := "UserCmp",
        Name := if x.name.Some? && x.name.value != "" then x.name.value else definition,
                       Id := x.id, Orient := num.show(x.orientation), Defn := definition] + PointAttrs(num, x.location);
      children := children + [Element("User", attrs, kids)];
    }

    method AppendConductor(num: Numerals, x: Conductor)
      requires x.vertices != []
      modifies this
      ensures children == old(children) + [ConductorElement(num, x)]
    {
      var origin := x.vertices[0];
      var vertices := [];
      ghost var all := VertexElements(num, x.vertices, origin);
      for i := 0 to |x.vertices|
        invariant vertices == all[..i]
      {
        var p := x.vertices[i];
        vertices := vertices + [Element("vertex", PointAttrs(num, (p.0 - origin.0, p.1 - origin.1)), [])];
      }
      assert all[..|x.vertices|] == all;
      var attrs := map[ClassId := if x.bus then "Bus" else "WireOrthogonal", Id := x.id,
                       Namespace := NetName(x.namespace)] + PointAttrs(num, origin);
      children := children + [Element(if x.bus then "Bus" else "Wire", attrs, vertices)];
    }

    method AppendLabel(num: Numerals, x: Label)
      modifies this
      ensures children == old(children) + [LabelElement(num, x)]
    {
      var definition := if x.namespace.Data? then "master:datalabel" else "master:nodelabel";
      var attrs := map[ClassId := "UserCmp", Name := definition, Id := x.id, Defn := definition,
                       Namespace := NetName(x.namespace), Scope := x.scope] + PointAttrs(num, x.location);
      var parameters := Element("paramlist", map[], [Element("param", map[Name := "Name", Value := x.name], [])]);
      children := children + [Element("User", attrs, [parameters])];
    }

    method AppendComponents(num: Numerals, c: Case, xs: seq<Component>)
      modifies this
      ensures children == old(children) + ComponentElements(num, c, xs)
    {
      ghost var base, all := children, ComponentElements(num, c, xs);
      for i := 0 to |xs|
        invariant children == base + all[..i]
      {
        AppendComponent(num, c, xs[i]);
      }
      assert all[..|xs|] == all;
    }

    method AppendConductors(num: Numerals, xs: seq<Conductor>)
      requires Drawn(xs)
      modifies this
      ensures children == old(children) + ConductorElements(num, xs)
    {
      ghost var base, all := children, ConductorElements(num, xs);
      for i := 0 to |xs|
        invariant children == base + all[..i]
      {
        AppendConductor(num, xs[i]);
      }
      assert all[..|xs|] == all;
    }

    method AppendLabels(num: Numerals, xs: seq<Label>)
      modifies this
      ensures children == old(children) + LabelElements(num, xs)
    {
      ghost var base, all := children, LabelElements(num, xs);
      for i := 0 to |xs|
        invariant children == base + all[..i]
      {
        AppendLabel(num, xs[i]);
      }
      assert all[..|xs|] == all;
    }

    // _replace_main_schematic
    method ReplaceMain(num: Numerals, c: Case)
      requires Drawn(c.conductors)
      modifies this
      ensures children == Canvas(num, c)
      ensures exists components, conductors, labels ::
        InOrder(components, c.components, COMPONENT_ID) && InOrder(conductors, c.conductors, CONDUCTOR_ID)
        && InOrder(labels, c.labels, LABEL_ID) && Drawn(conductors)
        && children == [PARAMLIST] + ComponentElements(num, c, components) + ConductorElements(num, conductors)
                       + LabelElements(num, labels)
    {
      SortByInOrder(c.components, COMPONENT_ID);
      SortByInOrder(c.conductors, CONDUCTOR_ID);
      SortByInOrder(c.labels, LABEL_ID);
      children := [PARAMLIST];
      AppendComponents(num, c, SortBy(c.components, COMPONENT_ID));
      SortedDrawn(c.conductors);
      AppendConductors(num, SortBy(c.conductors, CONDUCTOR_ID));
      AppendLabels(num, SortBy(c.labels, LABEL_ID));
    }
  }
}
