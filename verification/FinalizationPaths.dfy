// The finalization policies in the words of the file format: where a node is,
// which of its attributes the compiler may rewrite, and which calls it may
// reorder.  Nothing here knows about walks or masks.
module FinalizationPaths {
  import opened Options
  import opened ProjectFinalization

  // ---- nodes by position ----

  // A path is the child index at every level, from the root down.
  type Path = seq<nat>

  predicate Within(root: Node, path: Path)
    decreases |path|
  {
    path == [] || (path[0] < |root.children| && Within(root.children[path[0]], path[1..]))
  }

  function NodeAt(root: Node, path: Path): Node
    requires Within(root, path)
    decreases |path|
  {
    if path == [] then root else NodeAt(root.children[path[0]], path[1..])
  }

  // The tags of the ancestors, root first.
  function TagsAbove(root: Node, path: Path): (tags: seq<string>)
    requires Within(root, path)
    ensures |tags| == |path|
    decreases |path|
  {
    if path == [] then [] else [root.tag] + TagsAbove(root.children[path[0]], path[1..])
  }

  lemma {:induction false} WithinSnoc(root: Node, path: Path, i: nat)
    ensures Within(root, path + [i]) <==> Within(root, path) && i < |NodeAt(root, path).children|
    ensures Within(root, path + [i]) ==>
              NodeAt(root, path + [i]) == NodeAt(root, path).children[i]
              && TagsAbove(root, path + [i]) == TagsAbove(root, path) + [NodeAt(root, path).tag]
    decreases |path|
  {
    var more := path + [i];
    if path == [] {
      assert more[1..] == [];
    } else {
      assert more[1..] == path[1..] + [i] && more[0] == path[0];
      if path[0] < |root.children| { WithinSnoc(root.children[path[0]], path[1..], i); }
    }
  }

  lemma {:induction false} WithinPrefix(root: Node, path: Path, k: nat)
    requires Within(root, path) && k <= |path|
    ensures Within(root, path[..k]) && TagsAbove(root, path[..k]) == TagsAbove(root, path)[..k]
    ensures k < |path| ==> path[k] < |NodeAt(root, path[..k]).children|
    decreases |path|
  {
    if k > 0 {
      WithinPrefix(root.children[path[0]], path[1..], k - 1);
      assert path[..k][1..] == path[1..][..k - 1];
    }
  }

  // ---- sequencing parameters ----

  predicate Tagged(n: Node, tag: string, name: string) {
    n.tag == tag && "name" in n.attrs && n.attrs["name"] == name
  }

  predicate IsOne(n: Node) { "value" in n.attrs && n.attrs["value"] == "1" }

  predicate SequenceParameter(schematic: Node, i: nat, j: nat) {
    i < |schematic.children| && schematic.children[i].tag == "paramlist"
    && j < |schematic.children[i].children|
    && Tagged(schematic.children[i].children[j], "param", "auto_sequence")
  }

  // The schematic has one auto_sequence parameter, and it is 1.
  ghost predicate Sequenced(schematic: Node) {
    exists i: nat, j: nat ::
      SequenceParameter(schematic, i, j) && IsOne(schematic.children[i].children[j])
      && forall k: nat, l: nat :: SequenceParameter(schematic, k, l) ==> k == i && l == j
  }

  // An auto_sequence parameter of the schematic of the definition Main.
  predicate MainParameter(root: Node, path: Path) {
    |path| == 5 && Within(root, path)
    && TagsAbove(root, path)[1..] == ["definitions", "Definition", "schematic", "paramlist"]
    && (WithinPrefix(root, path, 2); Tagged(NodeAt(root, path[..2]), "Definition", "Main"))
    && Tagged(NodeAt(root, path), "param", "auto_sequence")
  }

  predicate Before(a: Path, b: Path) {
    b != [] && (a == [] || a[0] < b[0] || (a[0] == b[0] && Before(a[1..], b[1..])))
  }

  // The first such parameter of the file is 1.
  ghost predicate MainSequenced(root: Node) {
    exists path :: MainParameter(root, path) && IsOne(NodeAt(root, path))
      && forall other :: MainParameter(root, other) ==> other == path || Before(path, other)
  }

  // ---- the policies ----

  // The path ends at a schematic of a definition, at whatever depth.
  predicate Schematic(root: Node, path: Path) {
    Within(root, path) && NodeAt(root, path).tag == "schematic" && |path| >= 3
    && TagsAbove(root, path)[..3] == ["project", "definitions", "Definition"]
  }

  // Its first k steps lead to the innermost schematic around it, itself included.
  ghost predicate Inside(root: Node, path: Path, k: nat) {
    k <= |path| && Schematic(root, path[..k]) && forall j :: k < j <= |path| ==> !Schematic(root, path[..j])
  }

  ghost predicate InSchematic(root: Node, path: Path) { exists k: nat :: Inside(root, path, k) }

  ghost predicate InSequenced(root: Node, path: Path) {
    exists k: nat :: Inside(root, path, k) && Sequenced(NodeAt(root, path[..k]))
  }

  // The names of the top calls start with the name of the project.
  predicate Calls(root: Node, n: Node, suffix: string) {
    Get(n, "name") == Some((if "name" in root.attrs then root.attrs["name"] else "None") + ":" + suffix)
  }

  // The attributes the compiler may rewrite, and where.
  ghost predicate Listed(p: Policy, root: Node, path: Path, name: string)
    requires Within(root, path)
  {
    var n, tags := NodeAt(root, path), TagsAbove(root, path);
    (name == "value" && tags == ["project", "paramlist"] && Tagged(n, "param", "revisor")
     && (WithinPrefix(root, path, 1); Get(NodeAt(root, path[..1]), "name") == Some("Settings")))
    || (name in ["date", "crc"] && n.tag == "Definition" && tags == ["project", "definitions"])
    || (name == "z" && n.tag in ["User", "Wire"] && InSequenced(root, path))
    || (name in ["w", "h"] && n.tag == "Wire" && InSchematic(root, path))
    || (p in {GeneratedV1, GeneratedV2} && ListedGenerated(root, path, name))
  }

  // And those it may rewrite in a generated module.
  ghost predicate ListedGenerated(root: Node, path: Path, name: string)
    requires Within(root, path)
  {
    var n, tags := NodeAt(root, path), TagsAbove(root, path);
    (name in ["w", "h"] && n.tag == "User" && Get(n, "classid") == Some("UserCmp") && InSchematic(root, path))
    || (name == "crc" && InSchematic(root, path) && path != [] && Tagged(n, "paramlist", "")
        && Get(n, "link") == Some("-1")
        && (WithinPrefix(root, path, |path| - 1);
            var parent := NodeAt(root, path[..|path| - 1]);
            parent.tag == "User" && Get(parent, "classid") == Some("UserCmp")))
    || (name == "link" && n.tag == "call" && tags == ["project", "hierarchy"]
        && Get(root, "name").Some? && Get(root, "name") != Some("") && Calls(root, n, "Station"))
    || (name in ["instance", "z"] && n.tag == "call" && tags == ["project", "hierarchy", "call", "call"])
  }

  // The calls it may reorder: those of Main below the top Station call, when
  // Main sequences automatically.
  ghost predicate Reordered(p: Policy, root: Node, path: Path)
    requires Within(root, path)
  {
    p == GeneratedV2 && NodeAt(root, path).tag == "call"
    && TagsAbove(root, path) == ["project", "hierarchy", "call"] && Calls(root, NodeAt(root, path), "Main")
    && (WithinPrefix(root, path, 2); Calls(root, NodeAt(root, path[..2]), "Station"))
    && MainSequenced(root)
  }

  predicate SameIdentity(a: Node, b: Node) { Get(a, "link") == Get(b, "link") && Get(a, "name") == Get(b, "name") }

  // Every child is a call with a link and a name of its own.
  predicate Identified(kids: seq<Node>) {
    (forall k :: k in kids ==> k.tag == "call" && Get(k, "link").Some? && Get(k, "link") != Some("")
                               && Get(k, "name").Some? && Get(k, "name") != Some(""))
    && forall i, j :: 0 <= i < j < |kids| ==> !SameIdentity(kids[i], kids[j])
  }

  // ---- whitespace between elements ----

  predicate White(text: string) {
    forall c :: c in text ==>
      var k := c as int;
      9 <= k <= 13 || 28 <= k <= 32 || k in {0x85, 0xA0, 0x1680, 0x2028, 0x2029, 0x202F, 0x205F, 0x3000}
      || 0x2000 <= k <= 0x200A
  }

  // The texts agree, or are both absent or white next to children.
  predicate TextAgrees(a: Node, b: Node) {
    a.text == b.text
    || (a.children != [] && (a.text.Some? ==> White(a.text.value)) && (b.text.Some? ==> White(b.text.value)))
  }

  predicate BreaksLine(tail: Option<string>) {
    tail.Some? ==> White(tail.value) && exists c :: c in tail.value && (c as int == 10 || c as int == 13)
  }

  predicate TailAgrees(a: Node, b: Node) { a.tail == b.tail || (BreaksLine(a.tail) && BreaksLine(b.tail)) }

  // b could be the node of the finalized file that a was in the authored one.
  ghost predicate NodeAgrees(p: Policy, root: Node, path: Path, b: Node)
    requires Within(root, path)
  {
    var a := NodeAt(root, path);
    a.tag == b.tag && |a.children| == |b.children| && TextAgrees(a, b) && TailAgrees(a, b)
    && forall name :: Get(a, name) == Get(b, name) || Listed(p, root, path, name)
  }

  // The same place in both files: the same index at every level, or the call
  // of the same identity below a reordered call.
  ghost predicate Matched(p: Policy, a: Node, at: Path, b: Node, to: Path) {
    |at| == |to| && Within(a, at) && Within(b, to) && forall k :: 0 <= k < |at| ==> MatchedStep(p, a, at, b, to, k)
  }

  ghost predicate MatchedStep(p: Policy, a: Node, at: Path, b: Node, to: Path, k: nat)
    requires |at| == |to| && Within(a, at) && Within(b, to) && k < |at|
  {
    WithinPrefix(a, at, k);
    WithinPrefix(a, at, k + 1);
    WithinPrefix(b, to, k + 1);
    if Reordered(p, a, at[..k]) then SameIdentity(NodeAt(a, at[..k + 1]), NodeAt(b, to[..k + 1]))
    else at[k] == to[k]
  }

  // ---- changes of one node ----

  function Replaced(root: Node, path: Path, n: Node): Node
    requires Within(root, path)
    decreases |path|
  {
    if path == [] then n
    else root.(children := root.children[path[0] := Replaced(root.children[path[0]], path[1..], n)])
  }

  // The node with one attribute set, or removed.
  function WithAttribute(n: Node, name: string, value: Option<string>): Node {
    n.(attrs := if value.Some? then n.attrs[name := value.value] else n.attrs - {name})
  }

  function Edited(root: Node, path: Path, name: string, value: Option<string>): Node
    requires Within(root, path)
  {
    Replaced(root, path, WithAttribute(NodeAt(root, path), name, value))
  }

  lemma {:induction false} AttributeSet(n: Node, name: string, value: Option<string>)
    ensures Get(WithAttribute(n, name, value), name) == value
    ensures forall other :: other != name ==> Get(WithAttribute(n, name, value), other) == Get(n, other)
  {}

  // A path that leaves the changed one elsewhere finds the old node.
  lemma {:induction false} ReplacedAt(root: Node, path: Path, n: Node, k: nat, i: nat)
    requires Within(root, path) && k < |path|
    ensures Within(root, path[..k]) && Within(Replaced(root, path, n), path[..k])
    ensures var now, was := NodeAt(Replaced(root, path, n), path[..k]), NodeAt(root, path[..k]);
            |now.children| == |was.children|
            && (i < |was.children| && i != path[k] ==> now.children[i] == was.children[i])
    decreases |path|
  {
    if k > 0 {
      ReplacedAt(root.children[path[0]], path[1..], n, k - 1, i);
      assert path[..k][1..] == path[1..][..k - 1];
    }
  }

  lemma {:induction false} ReplacedNode(root: Node, path: Path, n: Node)
    requires Within(root, path)
    ensures Within(Replaced(root, path, n), path) && NodeAt(Replaced(root, path, n), path) == n
    decreases |path|
  {
    if path != [] { ReplacedNode(root.children[path[0]], path[1..], n); }
  }
}
