// What the generator writes into a seed project and what the audit of a whole
// project asks for, in the words of the project file.
module TopologyAccepted {
  import opened Options
  import opened TopologyTree
  import opened TopologyWriter
  import opened TopologyAudit
  import opened TopologyProject
  import opened TopologyDefinitions
  import opened TopologyMeaning

  // ---- places in a document ----

  // The element the child numbers lead to.
  function At(e: Element, path: seq<nat>): Option<Element> {
    if path == [] then Some(e)
    else if path[0] < |e.children| then At(e.children[path[0]], path[1..])
    else None
  }

  lemma {:induction false} IterReached(e: Element, x: Element) returns (path: seq<nat>)
    requires x in Iter(e)
    ensures At(e, path) == Some(x)
    decreases e, 1
  {
    path := [];
    if x != e { path := IterAllReached(e, e.children, 0, x); }
  }

  lemma {:induction false} IterAllReached(e: Element, kids: seq<Element>, n: nat, x: Element) returns (path: seq<nat>)
    requires n + |kids| == |e.children| && kids == e.children[n..] && x in IterAll(kids)
    ensures path != [] && At(e, path) == Some(x)
    decreases kids, 0
  {
    if x in Iter(kids[0]) {
      var below := IterReached(kids[0], x);
      path := [n] + below;
      assert path[1..] == below;
    } else {
      path := IterAllReached(e, kids[1..], n + 1, x);
    }
  }

  lemma {:induction false} ReachedIter(e: Element, path: seq<nat>, x: Element)
    requires At(e, path) == Some(x)
    ensures x in Iter(e)
    decreases |path|
  {
    if path != [] {
      ReachedIter(e.children[path[0]], path[1..], x);
      IterAllHolds(e.children, path[0], x);
    }
  }

  lemma {:induction false} IterAllHolds(kids: seq<Element>, i: nat, x: Element)
    requires i < |kids| && x in Iter(kids[i])
    ensures x in IterAll(kids)
  {
    if i > 0 { IterAllHolds(kids[1..], i - 1, x); }
  }

  // The document is the elements at its paths.
  lemma {:induction false} IterIsReached(e: Element, x: Element)
    ensures x in Iter(e) <==> exists path: seq<nat> :: At(e, path) == Some(x)
  {
    if x in Iter(e) { var path := IterReached(e, x); }
    if path: seq<nat> :| At(e, path) == Some(x) { ReachedIter(e, path, x); }
  }

  // The text behind the last colon.
  lemma {:induction false} LastPartMeans(s: string)
    ensures ':' !in LastPart(s)
    ensures LastPart(s) == s || exists k :: 0 <= k < |s| && s[k] == ':' && LastPart(s) == s[k + 1..]
  {
    if s != "" && s[|s| - 1] != ':' {
      var front := s[..|s| - 1];
      LastPartMeans(front);
      if k :| 0 <= k < |front| && front[k] == ':' && LastPart(front) == front[k + 1..] {
        assert s[k] == ':' && LastPart(s) == s[k + 1..];
      } else {
        assert LastPart(s) == s;
      }
    } else if s != "" {
      assert s[|s| - 1] == ':' && LastPart(s) == s[|s| - 1 + 1..];
    }
  }

  // ---- hierarchy ----

  predicate IsCall(e: Element, link: string, name: string) {
    e.tag == "call" && Attribute(e, Link) == link && Fold(LastPart(Attribute(e, Name))) == name
  }

  predicate CallAt(root: Element, path: seq<nat>, link: string, name: string) {
    At(root, path).Some? && IsCall(At(root, path).value, link, name)
  }

  ghost predicate Called(root: Element, link: string, name: string) {
    exists path: seq<nat> :: CallAt(root, path, link, name)
  }

  predicate Placed(c: Case, link: string, name: string) {
    exists k :: 0 <= k < |c.components| && c.components[k].id == link && Fold(c.components[k].definition) == name
  }

  predicate Designed(c: Case, name: string) { exists k :: 0 <= k < |c.designs| && Fold(c.designs[k].name) == name }

  // Of every local definition, the calls are the components.
  ghost predicate HierarchyHolds(c: Case, root: Element) {
    forall link, name :: Designed(c, name) ==> (Called(root, link, name) <==> Placed(c, link, name))
  }

  lemma {:induction false} LocalCallsAre(c: Case, root: Element, link: string, name: string)
    ensures (link, name) in LocalCalls(c, Iter(root)) <==> Designed(c, name) && Called(root, link, name)
  {
    if (link, name) in LocalCalls(c, Iter(root)) {
      var e :| e in Iter(root) && e.tag == "call" && IsLocal(c, CallName(e))
               && (link, name) == (GetOr(e, Link, ""), Fold(CallName(e)));
      var path := IterReached(root, e);
      assert CallAt(root, path, link, name);
    }
    if Designed(c, name) {
      if path: seq<nat> :| CallAt(root, path, link, name) {
        ReachedIter(root, path, At(root, path).value);
      }
    }
  }

  lemma {:induction false} ExpectedCallsAre(c: Case, link: string, name: string)
    ensures (link, name) in ExpectedCalls(c) <==> Designed(c, name) && Placed(c, link, name)
  {
    if (link, name) in ExpectedCalls(c) {
      var x :| x in c.components && IsLocal(c, x.definition) && (link, name) == (x.id, Fold(x.definition));
      var k :| 0 <= k < |c.components| && c.components[k] == x;
    }
    if Designed(c, name) && Placed(c, link, name) {
      var k :| 0 <= k < |c.components| && c.components[k].id == link && Fold(c.components[k].definition) == name;
      assert c.components[k] in c.components;
    }
  }

  lemma {:induction false} HierarchyExactly(c: Case, root: Element)
    ensures AuditHierarchy(c, root) <==> HierarchyHolds(c, root)
  {
    forall link, name
      ensures (link, name) in LocalCalls(c, Iter(root)) <==> Designed(c, name) && Called(root, link, name)
      ensures (link, name) in ExpectedCalls(c) <==> Designed(c, name) && Placed(c, link, name)
    {
      LocalCallsAre(c, root, link, name);
      ExpectedCallsAre(c, link, name);
    }
    if HierarchyHolds(c, root) {
      forall p ensures p in LocalCalls(c, Iter(root)) <==> p in ExpectedCalls(c) {
        var (link, name) := p;
      }
    }
  }

  // ---- definitions ----

  predicate LocalDefinition(e: Element) {
    Fold(e.tag) == "definition" && Fold(Attribute(e, Name)) != "station" && Fold(Attribute(e, Name)) != "main"
  }

  predicate MainDefinition(e: Element) { Fold(e.tag) == "definition" && Fold(Attribute(e, Name)) == "main" }

  predicate SchematicAt(kids: seq<Element>, k: nat) {
    k < |kids| && Fold(kids[k].tag) == "schematic" && forall j :: 0 <= j < k ==> Fold(kids[j].tag) != "schematic"
  }

  predicate MainAt(definitions: seq<Element>, k: nat) {
    k < |definitions| && MainDefinition(definitions[k]) && forall j :: 0 <= j < k ==> !MainDefinition(definitions[j])
  }

  // Element i is the last local definition of this name.
  predicate LastNamed(definitions: seq<Element>, i: nat, name: string) {
    i < |definitions| && LocalDefinition(definitions[i]) && Attribute(definitions[i], Name) == name
    && forall j :: i < j < |definitions| ==>
         !(LocalDefinition(definitions[j]) && Attribute(definitions[j], Name) == name)
  }

  predicate HasNamed(definitions: seq<Element>, name: string) {
    exists i: nat :: i < |definitions| && LastNamed(definitions, i, name)
  }

  // Below the definition but not below its first schematic: the ports of the
  // design.
  ghost predicate DesignHolds(num: Numerals, e: Element, d: Design, k: nat) {
    SchematicAt(e.children, k)
    && PortsHold(num, [e] + (IterAll(e.children[..k]) + IterAll(e.children[k + 1..])), d.ports)
  }

  ghost predicate DesignFits(num: Numerals, e: Element, d: Design) { exists k: nat :: DesignHolds(num, e, d, k) }

  ghost predicate DefinitionsHold(num: Numerals, c: Case, definitions: seq<Element>) {
    (forall name :: HasNamed(definitions, name) <==> HasItem(c.designs, DESIGN_NAME, name))
    && forall i: nat, k: nat :: LastItem(c.designs, DESIGN_NAME, k) && LastNamed(definitions, i, c.designs[k].name) ==>
         DesignFits(num, definitions[i], c.designs[k])
  }

  lemma {:induction false} OutsideIs(kids: seq<Element>, k: nat)
    requires SchematicAt(kids, k)
    ensures Outside(kids) == IterAll(kids[..k]) + IterAll(kids[k + 1..])
  {
    if k > 0 {
      assert Fold(kids[0].tag) != "schematic";
      OutsideIs(kids[1..], k - 1);
      assert kids[1..][..k - 1] == kids[..k][1..] && kids[1..][k..] == kids[k + 1..];
    } else {
      assert kids[..0] == [];
    }
  }

  lemma {:induction false} FirstSchematic(kids: seq<Element>, i: nat) returns (k: nat)
    requires i < |kids| && Fold(kids[i].tag) == "schematic"
    ensures SchematicAt(kids, k)
  {
    k := 0;
    if Fold(kids[0].tag) != "schematic" {
      k := FirstSchematic(kids[1..], i - 1);
      k := k + 1;
      forall j | 0 <= j < k ensures Fold(kids[j].tag) != "schematic" {
        if j > 0 { assert kids[j] == kids[1..][j - 1]; }
      }
    }
  }

  lemma {:induction false} DesignExactly(num: Numerals, e: Element, d: Design)
    ensures DesignMatches(num, e, d) <==> DesignFits(num, e, d)
  {
    PortsExactly(num, [e] + Outside(e.children), d.ports);
    if DesignMatches(num, e, d) {
      var i :| 0 <= i < |e.children| && Fold(e.children[i].tag) == "schematic";
      var k := FirstSchematic(e.children, i);
      OutsideIs(e.children, k);
      assert DesignHolds(num, e, d, k);
    }
    if k: nat :| DesignHolds(num, e, d, k) { OutsideIs(e.children, k); }
  }

  lemma {:induction false} OwnIs(e: Element)
    ensures IsOwn(e) <==> LocalDefinition(e)
    ensures IsMain(e) <==> MainDefinition(e)
  {
    assert GetOr(e, Name, "") == Attribute(e, Name);
  }

  lemma {:induction false} NamedOwn(definitions: seq<Element>, i: nat, name: string)
    requires LastNamed(definitions, i, name)
    ensures name in OwnByName(definitions) && OwnByName(definitions)[name] == definitions[i]
  {
    var n := |definitions| - 1;
    OwnIs(definitions[n]);
    if i < n {
      assert definitions[..n][i] == definitions[i];
      NamedOwn(definitions[..n], i, name);
    }
  }

  lemma {:induction false} OwnNamed(definitions: seq<Element>, name: string) returns (i: nat)
    requires name in OwnByName(definitions)
    ensures LastNamed(definitions, i, name) && OwnByName(definitions)[name] == definitions[i]
  {
    var n := |definitions| - 1;
    OwnIs(definitions[n]);
    if IsOwn(definitions[n]) && GetOr(definitions[n], Name, "") == name {
      i := n;
    } else {
      i := OwnNamed(definitions[..n], name);
      assert definitions[..n][i] == definitions[i];
      forall j | i < j < |definitions|
        ensures !(LocalDefinition(definitions[j]) && Attribute(definitions[j], Name) == name)
      {
        if j < n { assert definitions[..n][j] == definitions[j]; }
      }
    }
  }

  lemma {:induction false} NamesFound(c: Case, definitions: seq<Element>, name: string)
    ensures name in OwnByName(definitions) <==> HasNamed(definitions, name)
    ensures name in ByKey(c.designs, DESIGN_NAME) <==> HasItem(c.designs, DESIGN_NAME, name)
  {
    if name in OwnByName(definitions) { var i := OwnNamed(definitions, name); }
    if i: nat :| i < |definitions| && LastNamed(definitions, i, name) { NamedOwn(definitions, i, name); }
    KeysFound(Ports, [], c.designs, DESIGN_NAME, name);
  }

  lemma {:induction false} DefinitionsExactly(num: Numerals, c: Case, definitions: seq<Element>)
    ensures AuditDefinitions(num, c, definitions) <==> DefinitionsHold(num, c, definitions)
  {
    var observed, expected := OwnByName(definitions), ByKey(c.designs, DESIGN_NAME);
    forall name
      ensures name in observed <==> HasNamed(definitions, name)
      ensures name in expected <==> HasItem(c.designs, DESIGN_NAME, name)
    {
      NamesFound(c, definitions, name);
    }
    if AuditDefinitions(num, c, definitions) {
      forall i: nat, k: nat | LastItem(c.designs, DESIGN_NAME, k) && LastNamed(definitions, i, c.designs[k].name)
        ensures DesignFits(num, definitions[i], c.designs[k])
      {
        NamedOwn(definitions, i, c.designs[k].name);
        ByKeyLast(c.designs, DESIGN_NAME, k);
        DesignExactly(num, definitions[i], c.designs[k]);
      }
    }
    if DefinitionsHold(num, c, definitions) {
      forall name ensures name in observed <==> name in expected {
        assert HasNamed(definitions, name) <==> HasItem(c.designs, DESIGN_NAME, name);
      }
      forall name | name in expected ensures DesignMatches(num, observed[name], expected[name]) {
        var k := LastByKey(c.designs, DESIGN_NAME, name);
        var i := OwnNamed(definitions, name);
        DesignExactly(num, definitions[i], c.designs[k]);
      }
    }
  }

  // ---- the audit ----

  // The canvas is below the first schematic of the first Main definition.
  predicate CanvasAt(definitions: seq<Element>, k: nat, s: nat, canvas: seq<Element>) {
    MainAt(definitions, k) && SchematicAt(definitions[k].children, s)
    && definitions[k].children[s].children == canvas
  }

  lemma {:induction false} SchematicIs(kids: seq<Element>, s: nat)
    requires SchematicAt(kids, s)
    ensures SchematicOf(kids) == Some(kids[s].children)
  {
    if s > 0 {
      assert Fold(kids[0].tag) != "schematic";
      SchematicIs(kids[1..], s - 1);
    }
  }

  lemma {:induction false} SchematicFound(kids: seq<Element>) returns (s: nat)
    requires SchematicOf(kids).Some?
    ensures SchematicAt(kids, s)
  {
    s := 0;
    if Fold(kids[0].tag) != "schematic" {
      s := SchematicFound(kids[1..]);
      s := s + 1;
      forall j | 0 <= j < s ensures Fold(kids[j].tag) != "schematic" {
        if j > 0 { assert kids[j] == kids[1..][j - 1]; }
      }
    }
  }

  lemma {:induction false} MainIs(definitions: seq<Element>, k: nat)
    ensures MainAt(definitions, k) <==> k < |definitions| && BeforeMain(definitions) == k
  {
    BeforeMainFinds(definitions);
    forall j | 0 <= j < |definitions| ensures IsMain(definitions[j]) <==> MainDefinition(definitions[j]) {
      OwnIs(definitions[j]);
    }
    if MainAt(definitions, k) { BeforeMainIs(definitions, k); }
  }

  lemma {:induction false} CanvasIs(definitions: seq<Element>, canvas: seq<Element>)
    ensures MainCanvas(definitions) == Some(canvas) <==> exists k: nat, s: nat :: CanvasAt(definitions, k, s, canvas)
  {
    var m := BeforeMain(definitions);
    MainIs(definitions, m);
    if MainCanvas(definitions) == Some(canvas) {
      var s := SchematicFound(definitions[m].children);
      SchematicIs(definitions[m].children, s);
      assert CanvasAt(definitions, m, s, canvas);
    }
    if k: nat, s: nat :| CanvasAt(definitions, k, s, canvas) {
      MainIs(definitions, k);
      SchematicIs(definitions[k].children, s);
    }
  }

  // The audit accepts exactly a project of this name whose Main canvas, local
  // definitions and hierarchy are those of the case.
  lemma {:induction false} AuditExactly(num: Numerals, c: Case, p: Project)
    ensures Audit(num, c, p) <==>
            p.name == c.project && DefinitionsHold(num, c, p.definitions) && HierarchyHolds(c, p.hierarchy)
            && exists k: nat, s: nat, canvas :: CanvasAt(p.definitions, k, s, canvas) && CanvasHolds(num, c, canvas)
  {
    DefinitionsExactly(num, c, p.definitions);
    HierarchyExactly(c, p.hierarchy);
    forall canvas
      ensures AuditCanvas(num, c, canvas) <==> CanvasHolds(num, c, canvas)
      ensures MainCanvas(p.definitions) == Some(canvas)
         <==> exists k: nat, s: nat :: CanvasAt(p.definitions, k, s, canvas)
    {
      CanvasExactly(num, c, canvas);
      CanvasIs(p.definitions, canvas);
    }
    if MainCanvas(p.definitions).Some? && CanvasHolds(num, c, MainCanvas(p.definitions).value) {
      var k: nat, s: nat :| CanvasAt(p.definitions, k, s, MainCanvas(p.definitions).value);
    }
  }
}
