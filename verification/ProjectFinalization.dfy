// snapshot_project_semantics: splits a project tree into semantics and
// compiler metadata under three nested policies.
module ProjectFinalization {
  import opened Options
  import opened PyText

  // An XML element.  Comments and processing instructions are nodes with the
  // reserved tags "#comment" and "#processing-instruction".
  datatype Node = Node(
    tag: string,
    attrs: map<string, string>,
    text: Option<string>,
    tail: Option<string>,
    children: seq<Node>)

  datatype Policy = Base | GeneratedV1 | GeneratedV2

  predicate Generated(p: Policy) { p != Base }

  function Get(n: Node, name: string): Option<string> {
    if name in n.attrs then Some(n.attrs[name]) else None
  }

  // What the walk knows about the ancestors of a node.
  datatype Ctx = Ctx(
    tags: seq<string>,            // ancestor tags, root first
    upName: Option<string>,       // the parent's name and classid
    upClass: Option<string>,
    inSchematic: bool,
    automatic: bool,
    project: Option<string>,      // the root's name
    mainAuto: bool)               // Main uses automatic sequencing

  // ---- ElementTree path lookups ----

  datatype Hop = Hop(tag: string, name: Option<string>)

  predicate Matches(h: Hop, n: Node) { n.tag == h.tag && (h.name.Some? ==> Get(n, "name") == h.name) }

  // The "value" attributes of everything the path finds below `kids`, in document order.
  function Find(path: seq<Hop>, kids: seq<Node>): seq<Option<string>>
    requires path != []
    decreases |path|, |kids|
  {
    if kids == [] then []
    else
      (if !Matches(path[0], kids[0]) then []
       else if |path| == 1 then [Get(kids[0], "value")]
       else Find(path[1..], kids[0].children))
      + Find(path, kids[1..])
  }

  const AUTO_HOPS: seq<Hop> := [Hop("paramlist", None), Hop("param", Some("auto_sequence"))]
  const MAIN_HOPS: seq<Hop> :=
    [Hop("definitions", None), Hop("Definition", Some("Main")), Hop("schematic", None)] + AUTO_HOPS

  predicate AutoSequence(kids: seq<Node>) { Find(AUTO_HOPS, kids) == [Some("1")] }

  predicate MainAuto(root: Node) {
    var found := Find(MAIN_HOPS, root.children);
    found != [] && found[0] == Some("1")
  }

  function RootCtx(root: Node): Ctx {
    Ctx([], None, None, false, false, Get(root, "name"), MainAuto(root))
  }

  // ---- the mask ----

  predicate OpensSchematic(ctx: Ctx, n: Node) {
    n.tag == "schematic" && |ctx.tags| >= 3 && ctx.tags[..3] == ["project", "definitions", "Definition"]
  }

  // The schematic flags as they hold at the node itself.
  function At(ctx: Ctx, n: Node): Ctx {
    if OpensSchematic(ctx, n) then ctx.(inSchematic := true, automatic := AutoSequence(n.children)) else ctx
  }

  function Below(ctx: Ctx, n: Node): Ctx {
    At(ctx, n).(tags := ctx.tags + [n.tag], upName := Get(n, "name"), upClass := Get(n, "classid"))
  }

  // The suffix in the scope of the project; a project without a name reads "None".
  function Qualified(ctx: Ctx, suffix: string): string {
    (if ctx.project.Some? then ctx.project.value else "None") + ":" + suffix
  }

  predicate IsRevisor(ctx: Ctx, n: Node) {
    n.tag == "param" && ctx.tags == ["project", "paramlist"]
    && ctx.upName == Some("Settings") && Get(n, "name") == Some("revisor")
  }

  predicate IsInstanceParameters(ctx: Ctx, n: Node) {
    n.tag == "paramlist" && ctx.tags != [] && ctx.tags[|ctx.tags| - 1] == "User" && ctx.upClass == Some("UserCmp")
    && Get(n, "name") == Some("") && Get(n, "link") == Some("-1")
  }

  predicate IsStationCall(ctx: Ctx, n: Node) {
    n.tag == "call" && ctx.tags == ["project", "hierarchy"]
    && ctx.project.Some? && ctx.project.value != "" && Get(n, "name") == Some(Qualified(ctx, "Station"))
  }

  function Excluded(p: Policy, ctx0: Ctx, n: Node): set<string> {
    var ctx := At(ctx0, n);
    (if IsRevisor(ctx, n) then {"value"} else {})
    + (if n.tag == "Definition" && ctx.tags == ["project", "definitions"] then {"date", "crc"} else {})
    + (if ctx.inSchematic && (n.tag == "User" || n.tag == "Wire") && ctx.automatic then {"z"} else {})
    + (if ctx.inSchematic && n.tag == "Wire" then {"w", "h"} else {})
    + (if !Generated(p) then {} else
         (if ctx.inSchematic && n.tag == "User" && Get(n, "classid") == Some("UserCmp") then {"w", "h"} else {})
         + (if ctx.inSchematic && IsInstanceParameters(ctx, n) then {"crc"} else {})
         + (if IsStationCall(ctx, n) then {"link"} else {})
         + (if n.tag == "call" && ctx.tags == ["project", "hierarchy", "call", "call"] then {"instance", "z"} else {}))
  }

  // ---- canonical order of Main's direct calls (version 2) ----

  predicate Reorders(p: Policy, ctx: Ctx, n: Node) {
    p == GeneratedV2 && n.tag == "call" && ctx.tags == ["project", "hierarchy", "call"]
    && Get(n, "name") == Some(Qualified(ctx, "Main")) && ctx.upName == Some(Qualified(ctx, "Station"))
    && ctx.mainAuto
  }

  function KeyOf(n: Node): Key {
    (if "link" in n.attrs then n.attrs["link"] else "", if "name" in n.attrs then n.attrs["name"] else "")
  }

  // Every child is a call with its own nonempty link and name.
  predicate KeysFine(kids: seq<Node>) {
    && (forall i :: 0 <= i < |kids| ==> kids[i].tag == "call" && KeyOf(kids[i]).0 != "" && KeyOf(kids[i]).1 != "")
    && (forall i, j :: 0 <= i < j < |kids| ==> KeyOf(kids[i]) != KeyOf(kids[j]))
  }

  function Insert(n: Node, sorted: seq<Node>): (r: seq<Node>)
    ensures multiset(r) == multiset(sorted) + multiset{n}
  {
    if sorted == [] then [n]
    else if KeyLess(KeyOf(sorted[0]), KeyOf(n)) then
      assert sorted == [sorted[0]] + sorted[1..];
      [sorted[0]] + Insert(n, sorted[1..])
    else [n] + sorted
  }

  // A stable sort by (link, name).
  function SortByKey(kids: seq<Node>): (r: seq<Node>)
    ensures multiset(r) == multiset(kids) && |r| == |kids|
  {
    if kids == [] then []
    else
      assert kids == [kids[0]] + kids[1..];
      var r := Insert(kids[0], SortByKey(kids[1..]));
      assert |multiset(r)| == |r| && |multiset(kids)| == |kids|;
      r
  }

  // The children in the order the snapshot visits them.
  function Kids(p: Policy, ctx: Ctx, n: Node): (r: seq<Node>)
    ensures multiset(r) == multiset(n.children) && |r| == |n.children|
    ensures forall k :: k in r ==> k in n.children
  {
    var r := if Reorders(p, ctx, n) then SortByKey(n.children) else n.children;
    assert forall k :: k in r ==> k in multiset(r);
    r
  }

  // ---- the walk ----

  function Kept(attrs: map<string, string>, excluded: set<string>): map<string, string> {
    map name | name in attrs && name !in excluded :: attrs[name]
  }

  function Retained(p: Policy, ctx: Ctx, n: Node): map<string, string> { Kept(n.attrs, Excluded(p, ctx, n)) }

  predicate Ignorable(t: Option<string>) { t.None? || Blank(t.value) }

  predicate IgnorableTail(t: Option<string>) {
    t.None? || (Blank(t.value) && ('\n' in t.value || '\r' in t.value))
  }

  function Content(n: Node): Option<string> {
    if n.children != [] && Ignorable(n.text) then None else n.text
  }

  function Tail(n: Node): Option<string> { if IgnorableTail(n.tail) then None else n.tail }

  function Walk(p: Policy, ctx: Ctx, n: Node): Node
    decreases n
  {
    var kids := Kids(p, ctx, n);
    Node(n.tag, Retained(p, ctx, n), Content(n), Tail(n),
         seq(|kids|, i requires 0 <= i < |kids| => assert kids[i] in n.children; Walk(p, Below(ctx, n), kids[i])))
  }

  function WalkEach(p: Policy, ctx: Ctx, kids: seq<Node>): (r: seq<Node>)
    ensures |r| == |kids|
  {
    seq(|kids|, i requires 0 <= i < |kids| => Walk(p, ctx, kids[i]))
  }

  // ---- compiler metadata ----

  // Where a metadata entry was found: child indices from the root in visiting
  // order, and the attribute (or "compiler_child_order").
  datatype Place = Place(address: seq<nat>, field: string)
  datatype Entry = Value(text: string) | Order(keys: seq<Key>)
  type Metadata = map<Place, Entry>

  function KeysOf(kids: seq<Node>): (r: seq<Key>)
    ensures |r| == |kids|
  {
    seq(|kids|, i requires 0 <= i < |kids| => KeyOf(kids[i]))
  }

  const ORDER := "compiler_child_order"

  function Masked(attrs: map<string, string>, excluded: set<string>, at: seq<nat>): Metadata {
    map name | name in attrs && name in excluded :: Place(at, name) := Value(attrs[name])
  }

  function MaskedMeta(p: Policy, ctx: Ctx, n: Node, at: seq<nat>): Metadata { Masked(n.attrs, Excluded(p, ctx, n), at) }

  function OwnMeta(p: Policy, ctx: Ctx, n: Node, at: seq<nat>): Metadata {
    if Reorders(p, ctx, n) then MaskedMeta(p, ctx, n, at)[Place(at, ORDER) := Order(KeysOf(n.children))]
    else MaskedMeta(p, ctx, n, at)
  }

  function Join(parts: seq<Metadata>): Metadata {
    if parts == [] then map[] else Join(parts[..|parts| - 1]) + parts[|parts| - 1]
  }

  function Meta(p: Policy, ctx: Ctx, n: Node, at: seq<nat>): Metadata
    decreases n
  {
    var kids := Kids(p, ctx, n);
    OwnMeta(p, ctx, n, at)
    + Join(seq(|kids|, i requires 0 <= i < |kids| => assert kids[i] in n.children;
      Meta(p, Below(ctx, n), kids[i], at + [i])))
  }

  function MetaEach(p: Policy, ctx: Ctx, kids: seq<Node>, at: seq<nat>): (r: seq<Metadata>)
    ensures |r| == |kids|
  {
    seq(|kids|, i requires 0 <= i < |kids| => Meta(p, ctx, kids[i], at + [i]))
  }

  lemma {:induction false} MetaSplits(p: Policy, ctx: Ctx, n: Node, at: seq<nat>)
    ensures Meta(p, ctx, n, at) == OwnMeta(p, ctx, n, at) + Join(MetaEach(p, Below(ctx, n), Kids(p, ctx, n), at))
  {
    var kids := Kids(p, ctx, n);
    assert MetaEach(p, Below(ctx, n), kids, at)
      == seq(|kids|, i requires 0 <= i < |kids| => assert kids[i] in n.children;
        Meta(p, Below(ctx, n), kids[i], at + [i]));
  }

  // Version 2 refuses a tree whose Main calls have no unique identities.
  predicate Accepts(p: Policy, ctx: Ctx, n: Node)
    decreases n
  {
    && (Reorders(p, ctx, n) ==> KeysFine(n.children))
    && forall k :: k in n.children ==> Accepts(p, Below(ctx, n), k)
  }

  datatype Snapshot = Rejected | Taken(policy: Policy, semantics: Node)

  function SnapshotOf(p: Policy, root: Node): Snapshot {
    if root.tag != "project" || !Accepts(p, RootCtx(root), root) then Rejected
    else Taken(p, Walk(p, RootCtx(root), root))
  }

  // The check of compare_project_finalization.
  predicate SameFinalization(a: Snapshot, b: Snapshot) {
    a.Taken? && b.Taken? && a.policy == b.policy && a.semantics == b.semantics
  }

  // The walk as the source runs it: one recursion that returns the semantics
  // and records metadata in a shared dictionary as it goes.
  class Snapshotter {
    const policy: Policy
    var metadata: Metadata

    constructor (policy: Policy)
      ensures this.policy == policy && metadata == map[]
    {
      this.policy := policy;
      metadata := map[];
    }

    // Splits the attributes one by one.
    method RecordMasked(attrs: map<string, string>, excluded: set<string>, at: seq<nat>)
            returns (attributes: map<string, string>)
      modifies this
      ensures attributes == Kept(attrs, excluded)
      ensures metadata == old(metadata) + Masked(attrs, excluded, at)
    {
      attributes := map[];
      var todo := attrs.Keys;
      ghost var seen: map<string, string> := map[];
      while todo != {}
        invariant todo + seen.Keys == attrs.Keys && todo !! seen.Keys
        invariant forall name :: name in seen ==> seen[name] == attrs[name]
        invariant attributes == Kept(seen, excluded)
        invariant metadata == old(metadata) + Masked(seen, excluded, at)
        decreases todo
      {
        var name :| name in todo;
        todo := todo - {name};
        MaskOne(seen, name, attrs[name], excluded, at);
        PlusUpdate(old(metadata), Masked(seen, excluded, at), Place(at, name), Value(attrs[name]));
        seen := seen[name := attrs[name]];
        if name in excluded {
          metadata := metadata[Place(at, name) := Value(attrs[name])];
        } else {
          attributes := attributes[name := attrs[name]];
        }
      }
      assert seen == attrs;
    }

    method WalkKids(ctx: Ctx, n: Node, children: seq<Node>, at: seq<nat>) returns (ok: bool, walked: seq<Node>)
      requires forall c :: c in children ==> c in n.children
      modifies this
      ensures ok == AllAccept(policy, Below(ctx, n), children)
      ensures ok ==> walked == WalkEach(policy, Below(ctx, n), children)
      ensures ok ==> metadata == old(metadata) + Join(MetaEach(policy, Below(ctx, n), children, at))
      decreases n, 0
    {
      var below := Below(ctx, n);
      ghost var start := metadata;
      walked := [];
      for k := 0 to |children|
        invariant Walked(policy, below, children, at, k, start, walked, metadata)
      {
        assert children[k] in n.children;
        WalkedOne(policy, below, children, at, k, start, walked, metadata);
        var accepted, child := WalkNode(below, children[k], at + [k]);
        if !accepted { return false, []; }
        walked := walked + [child];
      }
      assert children[..|children|] == children;
      ok := true;
    }

    method WalkNode(ctx: Ctx, n: Node, at: seq<nat>) returns (ok: bool, semantics: Node)
      modifies this
      ensures ok == Accepts(policy, ctx, n)
      ensures ok ==> semantics == Walk(policy, ctx, n) && metadata == old(metadata) + Meta(policy, ctx, n, at)
      decreases n, 1
    {
      var attributes := RecordMasked(n.attrs, Excluded(policy, ctx, n), at);
      var children := n.children;
      if Reorders(policy, ctx, n) {
        if !KeysFine(children) { return false, n; }
        PlusUpdate(old(metadata), MaskedMeta(policy, ctx, n, at), Place(at, ORDER), Order(KeysOf(children)));
        metadata := metadata[Place(at, ORDER) := Order(KeysOf(children))];
        children := SortByKey(children);
      }
      MetaSplits(policy, ctx, n, at);
      PlusPlus(old(metadata), OwnMeta(policy, ctx, n, at), Join(MetaEach(policy, Below(ctx, n), children, at)));
      var walked;
      ok, walked := WalkKids(ctx, n, children, at);
      SameMembers(children, n.children);
      assert ok == AllAccept(policy, Below(ctx, n), n.children);
      semantics := Node(n.tag, attributes, Content(n), Tail(n), walked);
    }
  }

  lemma {:induction false} MaskOne(seen: map<string, string>, name: string, value: string, excluded: set<string>,
          at: seq<nat>)
    requires name !in seen
    ensures Kept(seen[name := value], excluded)
      == if name in excluded then Kept(seen, excluded) else Kept(seen, excluded)[name := value]
    ensures Masked(seen[name := value], excluded, at)
      == if name in excluded then Masked(seen, excluded, at)[Place(at, name) := Value(value)]
        else Masked(seen, excluded, at)
  {
    var m, m' := Masked(seen, excluded, at), Masked(seen[name := value], excluded, at);
    forall pl ensures pl in m' <==> pl in m || (name in excluded && pl == Place(at, name)) {
      assert pl in m' <==>
        pl.address == at && pl.field in seen[name := value] && pl.field in excluded && pl == Place(at, pl.field);
    }
  }

  predicate AllAccept(p: Policy, ctx: Ctx, kids: seq<Node>) { forall c :: c in kids ==> Accepts(p, ctx, c) }

  lemma {:induction false} AcceptSnoc(p: Policy, ctx: Ctx, kids: seq<Node>, k: nat)
    requires k < |kids|
    ensures AllAccept(p, ctx, kids[..k + 1]) <==> AllAccept(p, ctx, kids[..k]) && Accepts(p, ctx, kids[k])
    ensures !Accepts(p, ctx, kids[k]) ==> !AllAccept(p, ctx, kids)
  {
    assert kids[..k + 1] == kids[..k] + [kids[k]];
  }

  lemma {:induction false} WalkSnoc(p: Policy, ctx: Ctx, kids: seq<Node>, k: nat)
    requires k < |kids|
    ensures WalkEach(p, ctx, kids[..k + 1]) == WalkEach(p, ctx, kids[..k]) + [Walk(p, ctx, kids[k])]
  {
    var longer, shorter := WalkEach(p, ctx, kids[..k + 1]), WalkEach(p, ctx, kids[..k]);
    assert forall i :: 0 <= i < k ==> longer[i] == shorter[i];
  }

  lemma {:induction false} JoinSnoc(parts: seq<Metadata>, part: Metadata)
    ensures Join(parts + [part]) == Join(parts) + part
  {
    assert (parts + [part])[..|parts|] == parts;
  }

  lemma {:induction false} Appended<T>(longer: seq<T>, shorter: seq<T>, last: T)
    requires |longer| == |shorter| + 1 && longer[|shorter|] == last
    requires forall i :: 0 <= i < |shorter| ==> longer[i] == shorter[i]
    ensures longer == shorter + [last]
  {
  }

  lemma {:induction false} MetaSnoc(p: Policy, ctx: Ctx, kids: seq<Node>, at: seq<nat>, k: nat)
    requires k < |kids|
    ensures Join(MetaEach(p, ctx, kids[..k + 1], at))
      == Join(MetaEach(p, ctx, kids[..k], at)) + Meta(p, ctx, kids[k], at + [k])
  {
    var longer, shorter := MetaEach(p, ctx, kids[..k + 1], at), MetaEach(p, ctx, kids[..k], at);
    var last := Meta(p, ctx, kids[k], at + [k]);
    forall i | 0 <= i < k ensures longer[i] == shorter[i] {
      assert kids[..k + 1][i] == kids[..k][i];
    }
    assert kids[..k + 1][k] == kids[k];
    assert longer[k] == last;
    Appended(longer, shorter, last);
    JoinSnoc(shorter, last);
  }

  // What the child loop has established after k children, on a dictionary that
  // held start before the loop.
  ghost predicate Walked(p: Policy, ctx: Ctx, kids: seq<Node>, at: seq<nat>, k: nat, start: Metadata,
                         walked: seq<Node>, metadata: Metadata)
    requires k <= |kids|
  {
    AllAccept(p, ctx, kids[..k]) && walked == WalkEach(p, ctx, kids[..k])
    && metadata == start + Join(MetaEach(p, ctx, kids[..k], at))
  }

  lemma {:induction false} WalkedOne(p: Policy, ctx: Ctx, kids: seq<Node>, at: seq<nat>, k: nat, start: Metadata,
          walked: seq<Node>, metadata: Metadata)
    requires k < |kids| && Walked(p, ctx, kids, at, k, start, walked, metadata)
    ensures !Accepts(p, ctx, kids[k]) ==> !AllAccept(p, ctx, kids)
    ensures Accepts(p, ctx, kids[k]) ==>
              Walked(p, ctx, kids, at, k + 1, start, walked + [Walk(p, ctx, kids[k])],
                     metadata + Meta(p, ctx, kids[k], at + [k]))
  {
    EachSnoc(p, ctx, kids, at, k);
    PlusPlus(start, Join(MetaEach(p, ctx, kids[..k], at)), Meta(p, ctx, kids[k], at + [k]));
  }

  lemma {:induction false} EachSnoc(p: Policy, ctx: Ctx, kids: seq<Node>, at: seq<nat>, k: nat)
    requires k < |kids|
    ensures AllAccept(p, ctx, kids[..k + 1]) <==> AllAccept(p, ctx, kids[..k]) && Accepts(p, ctx, kids[k])
    ensures WalkEach(p, ctx, kids[..k + 1]) == WalkEach(p, ctx, kids[..k]) + [Walk(p, ctx, kids[k])]
    ensures !Accepts(p, ctx, kids[k]) ==> !AllAccept(p, ctx, kids)
    ensures Join(MetaEach(p, ctx, kids[..k + 1], at))
      == Join(MetaEach(p, ctx, kids[..k], at)) + Meta(p, ctx, kids[k], at + [k])
  {
    AcceptSnoc(p, ctx, kids, k);
    WalkSnoc(p, ctx, kids, k);
    MetaSnoc(p, ctx, kids, at, k);
  }

  lemma {:induction false} PlusUpdate(a: Metadata, b: Metadata, k: Place, v: Entry)
    ensures (a + b)[k := v] == a + b[k := v]
  {}

  lemma {:induction false} PlusPlus(a: Metadata, b: Metadata, c: Metadata)
    ensures (a + b) + c == a + (b + c)
  {}

  lemma {:induction false} SameMembers(a: seq<Node>, b: seq<Node>)
    requires multiset(a) == multiset(b)
    ensures forall c :: c in a <==> c in b
  {
    assert forall c :: c in a <==> c in multiset(a);
    assert forall c :: c in b <==> c in multiset(b);
  }
}
