// The metadata evidence is complete: nothing a comparison ignores is lost.
module FinalizationEvidence {
  import opened Options
  import opened ProjectFinalization
  import opened FinalizationTheorems

  // A tree with its ignorable whitespace removed and nothing else changed.
  function Blanked(n: Node): Node {
    Node(n.tag, n.attrs, Content(n), Tail(n),
      seq(|n.children|, i requires 0 <= i < |n.children| => Blanked(n.children[i])))
  }

  function BlankEach(kids: seq<Node>): (r: seq<Node>)
    ensures |r| == |kids|
  {
    seq(|kids|, i requires 0 <= i < |kids| => Blanked(kids[i]))
  }

  // ---- whitespace is invisible to a snapshot ----

  lemma {:induction false} FindBlank(path: seq<Hop>, kids: seq<Node>)
    requires path != []
    ensures Find(path, BlankEach(kids)) == Find(path, kids)
    decreases |path|, |kids|
  {
    if kids != [] {
      var bs := BlankEach(kids);
      assert bs[0] == Blanked(kids[0]) && bs[1..] == BlankEach(kids[1..]);
      FindBlank(path, kids[1..]);
      if |path| > 1 {
        assert bs[0].children == BlankEach(kids[0].children);
        FindBlank(path[1..], kids[0].children);
      }
    }
  }

  lemma {:induction false} BlankLookups(n: Node)
    ensures AutoSequence(Blanked(n).children) == AutoSequence(n.children) && MainAuto(Blanked(n)) == MainAuto(n)
  {
    assert Blanked(n).children == BlankEach(n.children);
    FindBlank(AUTO_HOPS, n.children);
    FindBlank(MAIN_HOPS, n.children);
  }

  lemma {:induction false} BlankMask(p: Policy, ctx: Ctx, n: Node)
    ensures Excluded(p, ctx, Blanked(n)) == Excluded(p, ctx, n)
  {
    BlankLookups(n);
    MaskCongruent(p, ctx, Blanked(n), n);
  }

  lemma {:induction false} BlankFacts(p: Policy, ctx: Ctx, n: Node)
    ensures Excluded(p, ctx, Blanked(n)) == Excluded(p, ctx, n) && Below(ctx, Blanked(n)) == Below(ctx, n)
    ensures Reorders(p, ctx, Blanked(n)) == Reorders(p, ctx, n) && RootCtx(Blanked(n)) == RootCtx(n)
  {
    BlankMask(p, ctx, n);
    BlankLookups(n);
    assert Blanked(n).attrs == n.attrs;
  }

  lemma {:induction false} BlankKids(p: Policy, ctx: Ctx, n: Node)
    ensures Kids(p, ctx, Blanked(n)) == BlankEach(Kids(p, ctx, n))
  {
    BlankFacts(p, ctx, n);
    assert Blanked(n).children == BlankEach(n.children);
    if Reorders(p, ctx, n) {
      var f := x => Blanked(x);
      SortMapCommutes(f, n.children);
      BlankEachIsMap(f, n.children);
      BlankEachIsMap(f, SortByKey(n.children));
    }
  }

  lemma {:induction false} BlankOwn(p: Policy, ctx: Ctx, n: Node, at: seq<nat>)
    ensures OwnMeta(p, ctx, Blanked(n), at) == OwnMeta(p, ctx, n, at)
  {
    BlankFacts(p, ctx, n);
    assert KeysOf(Blanked(n).children) == KeysOf(n.children);
  }

  lemma {:induction false} BlankEachIsMap(f: Node -> Node, kids: seq<Node>)
    requires forall n :: f(n) == Blanked(n)
    ensures BlankEach(kids) == MapAll(f, kids)
  {
    if kids != [] {
      BlankEachIsMap(f, kids[1..]);
      assert BlankEach(kids) == [f(kids[0])] + BlankEach(kids[1..]);
    }
  }

  lemma {:induction false} WalkIgnoresBlank(p: Policy, ctx: Ctx, n: Node)
    ensures Walk(p, ctx, Blanked(n)) == Walk(p, ctx, n)
    decreases n
  {
    BlankFacts(p, ctx, n);
    BlankKids(p, ctx, n);
    var kids := Kids(p, ctx, n);
    forall i | 0 <= i < |kids| ensures Walk(p, Below(ctx, n), Blanked(kids[i])) == Walk(p, Below(ctx, n), kids[i]) {
      assert kids[i] in n.children;
      WalkIgnoresBlank(p, Below(ctx, n), kids[i]);
    }
    assert Walk(p, ctx, Blanked(n)).children == Walk(p, ctx, n).children;
  }

  lemma {:induction false} MetaEachSame(p: Policy, ctx: Ctx, xs: seq<Node>, ys: seq<Node>, at: seq<nat>)
    requires |xs| == |ys|
    requires forall i :: 0 <= i < |xs| ==> Meta(p, ctx, xs[i], at + [i]) == Meta(p, ctx, ys[i], at + [i])
    ensures MetaEach(p, ctx, xs, at) == MetaEach(p, ctx, ys, at)
  {
    var a, b := MetaEach(p, ctx, xs, at), MetaEach(p, ctx, ys, at);
    forall i | 0 <= i < |xs| ensures a[i] == b[i] {
      assert a[i] == Meta(p, ctx, xs[i], at + [i]) && b[i] == Meta(p, ctx, ys[i], at + [i]);
    }
  }

  lemma {:induction false} MetaIgnoresBlank(p: Policy, ctx: Ctx, n: Node, at: seq<nat>)
    ensures Meta(p, ctx, Blanked(n), at) == Meta(p, ctx, n, at)
    decreases n
  {
    var kids, below := Kids(p, ctx, n), Below(ctx, n);
    var blank := BlankEach(kids);
    forall i | 0 <= i < |kids| ensures Meta(p, below, blank[i], at + [i]) == Meta(p, below, kids[i], at + [i]) {
      assert kids[i] in n.children;
      MetaIgnoresBlank(p, below, kids[i], at + [i]);
    }
    MetaEachSame(p, below, blank, kids, at);
    BlankFacts(p, ctx, n);
    BlankKids(p, ctx, n);
    BlankOwn(p, ctx, n, at);
    MetaSplits(p, ctx, n, at);
    MetaSplits(p, ctx, Blanked(n), at);
  }

  // ---- every entry belongs to one node ----

  ghost predicate PlacedUnder(m: Metadata, at: seq<nat>) { forall pl :: pl in m ==> at <= pl.address }

  // The k-th part only speaks about the k-th child.
  ghost predicate PartsPlaced(parts: seq<Metadata>, at: seq<nat>) {
    forall k :: 0 <= k < |parts| ==> PlacedUnder(parts[k], at + [k])
  }

  lemma {:induction false} JoinPlaces(parts: seq<Metadata>, at: seq<nat>)
    requires PartsPlaced(parts, at)
    ensures forall pl :: pl in Join(parts) ==> at < pl.address && pl.address[|at|] < |parts|
  {
    if parts != [] {
      var k := |parts| - 1;
      JoinPlaces(parts[..k], at);
      Prefixed(at, k);
      assert PlacedUnder(parts[k], at + [k]);
    }
  }

  lemma {:induction false} JoinUnder(parts: seq<Metadata>, at: seq<nat>, i: nat)
    requires PartsPlaced(parts, at) && i < |parts|
    ensures Under(Join(parts), at + [i]) == parts[i]
  {
    var k := |parts| - 1;
    Prefixed(at, i);
    Prefixed(at, k);
    assert PlacedUnder(parts[k], at + [k]);
    if i < k {
      JoinUnder(parts[..k], at, i);
      forall pl | pl in parts[k] ensures !(at + [i] <= pl.address) {
        assert pl.address[|at|] == k;
      }
      UnderLeft(Join(parts[..k]), parts[k], at + [i]);
    } else {
      JoinPlaces(parts[..k], at);
      UnderRight(Join(parts[..k]), parts[k], at + [i]);
    }
  }

  lemma {:induction false} MetaPlaces(p: Policy, ctx: Ctx, n: Node, at: seq<nat>)
    ensures PlacedUnder(Meta(p, ctx, n, at), at)
    decreases n, 1
  {
    MetaSplits(p, ctx, n, at);
    KidsPlaced(p, ctx, n, at);
    JoinPlaces(MetaEach(p, Below(ctx, n), Kids(p, ctx, n), at), at);
    OwnPlaces(p, ctx, n, at);
  }

  lemma {:induction false} KidsPlaced(p: Policy, ctx: Ctx, n: Node, at: seq<nat>)
    ensures PartsPlaced(MetaEach(p, Below(ctx, n), Kids(p, ctx, n), at), at)
    decreases n, 0
  {
    var kids := Kids(p, ctx, n);
    forall k | 0 <= k < |kids| ensures PlacedUnder(Meta(p, Below(ctx, n), kids[k], at + [k]), at + [k]) {
      assert kids[k] in n.children;
      MetaPlaces(p, Below(ctx, n), kids[k], at + [k]);
    }
  }

  function Under(m: Metadata, at: seq<nat>): Metadata { map pl | pl in m && at <= pl.address :: m[pl] }

  lemma {:induction false} UnderLeft(m: Metadata, last: Metadata, at: seq<nat>)
    requires forall pl :: pl in last ==> !(at <= pl.address)
    ensures Under(m + last, at) == Under(m, at) && Under(last + m, at) == Under(m, at)
  {}

  lemma {:induction false} UnderRight(m: Metadata, last: Metadata, at: seq<nat>)
    requires forall pl :: pl in m ==> !(at <= pl.address)
    requires forall pl :: pl in last ==> at <= pl.address
    ensures Under(m + last, at) == last
  {}

  lemma {:induction false} Prefixed(at: seq<nat>, i: nat)
    ensures forall s: seq<nat> :: at + [i] <= s ==> at < s && s[|at|] == i
  {
    forall s: seq<nat> | at + [i] <= s ensures at < s && s[|at|] == i {
      assert s[|at|] == (at + [i])[|at|];
      assert s[..|at|] == (at + [i])[..|at|];
    }
  }

  lemma {:induction false} OwnPlaces(p: Policy, ctx: Ctx, n: Node, at: seq<nat>)
    ensures forall pl :: pl in OwnMeta(p, ctx, n, at) ==> pl.address == at
  {}

  // The entries of one child, and those of the node itself, can be read back
  // from the shared dictionary.
  lemma {:induction false} MetaParts(p: Policy, ctx: Ctx, n: Node, at: seq<nat>, i: nat)
    requires i < |n.children|
    ensures Under(Meta(p, ctx, n, at), at + [i]) == Meta(p, Below(ctx, n), Kids(p, ctx, n)[i], at + [i])
  {
    var parts := MetaEach(p, Below(ctx, n), Kids(p, ctx, n), at);
    MetaSplits(p, ctx, n, at);
    KidsPlaced(p, ctx, n, at);
    JoinUnder(parts, at, i);
    OwnPlaces(p, ctx, n, at);
    UnderLeft(Join(parts), OwnMeta(p, ctx, n, at), at + [i]);
  }

  function Lookup(m: Metadata, pl: Place): Option<Entry> { if pl in m then Some(m[pl]) else None }

  lemma {:induction false} MetaOwn(p: Policy, ctx: Ctx, n: Node, at: seq<nat>, field: string)
    ensures Lookup(Meta(p, ctx, n, at), Place(at, field)) == Lookup(OwnMeta(p, ctx, n, at), Place(at, field))
  {
    MetaSplits(p, ctx, n, at);
    KidsPlaced(p, ctx, n, at);
    JoinPlaces(MetaEach(p, Below(ctx, n), Kids(p, ctx, n), at), at);
  }

  lemma {:induction false} OwnAttr(p: Policy, ctx: Ctx, n: Node, at: seq<nat>, name: string)
    requires name in Excluded(p, ctx, n)
    ensures Lookup(OwnMeta(p, ctx, n, at), Place(at, name))
      == if name in n.attrs then Some(Value(n.attrs[name])) else None
  {
    assert name != ORDER;
    assert Place(at, name) in MaskedMeta(p, ctx, n, at) <==> name in n.attrs;
  }

  lemma {:induction false} OwnAttrs(p: Policy, ctx: Ctx, a: Node, b: Node, at: seq<nat>)
    requires Walk(p, ctx, a) == Walk(p, ctx, b) && Meta(p, ctx, a, at) == Meta(p, ctx, b, at)
    ensures a.attrs == b.attrs
    ensures Reorders(p, ctx, a) ==> KeysOf(a.children) == KeysOf(b.children)
  {
    EqualRoots(p, ctx, a, b);
    forall name ensures Get(a, name) == Get(b, name) {
      MetaOwn(p, ctx, a, at, name);
      MetaOwn(p, ctx, b, at, name);
      if name in Excluded(p, ctx, a) {
        OwnAttr(p, ctx, a, at, name);
        OwnAttr(p, ctx, b, at, name);
      }
    }
    SameAttrs(a, b);
    MetaOwn(p, ctx, a, at, ORDER);
    MetaOwn(p, ctx, b, at, ORDER);
  }

  lemma {:induction false} SameAttrs(a: Node, b: Node)
    requires forall name :: Get(a, name) == Get(b, name)
    ensures a.attrs == b.attrs
  {
    assert forall name :: name in a.attrs <==> Get(a, name).Some?;
    assert forall name :: name in b.attrs <==> Get(b, name).Some?;
    forall name | name in a.attrs ensures a.attrs[name] == b.attrs[name] { assert Get(a, name) == Get(b, name); }
  }

  // An element of one ordering stands somewhere in any other.
  lemma {:induction false} Moved(xs: seq<Node>, ys: seq<Node>, i: nat) returns (j: nat)
    requires i < |xs| && multiset(xs) == multiset(ys)
    ensures j < |ys| && ys[j] == xs[i]
  {
    assert xs[i] in multiset(ys);
    j :| 0 <= j < |ys| && ys[j] == xs[i];
  }

  // With the recorded order, equal sorted children were equal in place.
  lemma {:induction false} OrderRestores(xs: seq<Node>, ys: seq<Node>, i: nat)
    requires |xs| == |ys| && i < |xs| && KeysOf(xs) == KeysOf(ys) && UniqueKeys(ys)
    requires forall j | 0 <= j < |xs| :: Blanked(SortByKey(xs)[j]) == Blanked(SortByKey(ys)[j])
    ensures Blanked(xs[i]) == Blanked(ys[i])
  {
    var sx, sy := SortByKey(xs), SortByKey(ys);
    var j := Moved(xs, sx, i);
    assert KeyOf(sx[j]) == KeyOf(Blanked(sx[j])) == KeyOf(Blanked(sy[j])) == KeyOf(sy[j]);
    var k := Moved(sy, ys, j);
    assert KeysOf(xs)[i] == KeyOf(xs[i]) && KeysOf(ys)[i] == KeyOf(ys[i]);
  }

  lemma {:induction false} KidsAgree(p: Policy, ctx: Ctx, a: Node, b: Node, at: seq<nat>, i: nat, ka: Node, kb: Node,
          below: Ctx)
    requires Walk(p, ctx, a) == Walk(p, ctx, b) && Meta(p, ctx, a, at) == Meta(p, ctx, b, at) && Accepts(p, ctx, b)
    requires i < |a.children| == |b.children| && Below(ctx, a) == Below(ctx, b) == below
    requires ka == Kids(p, ctx, a)[i] && kb == Kids(p, ctx, b)[i]
    ensures ka in a.children && Walk(p, below, ka) == Walk(p, below, kb)
    ensures Meta(p, below, ka, at + [i]) == Meta(p, below, kb, at + [i]) && Accepts(p, below, kb)
  {
    assert ka in a.children && kb in b.children;
    assert Walk(p, ctx, a).children[i] == Walk(p, below, ka) && Walk(p, ctx, b).children[i] == Walk(p, below, kb);
    MetaParts(p, ctx, a, at, i);
    MetaParts(p, ctx, b, at, i);
  }

  lemma {:induction false} BlankAssembles(p: Policy, ctx: Ctx, a: Node, b: Node)
    requires Walk(p, ctx, a) == Walk(p, ctx, b) && a.attrs == b.attrs && |a.children| == |b.children|
    requires Reorders(p, ctx, a) == Reorders(p, ctx, b)
    requires Reorders(p, ctx, a) ==> KeysOf(a.children) == KeysOf(b.children) && KeysFine(b.children)
    requires forall i | 0 <= i < |a.children| :: Blanked(Kids(p, ctx, a)[i]) == Blanked(Kids(p, ctx, b)[i])
    ensures Blanked(a) == Blanked(b)
  {
    forall i | 0 <= i < |a.children| ensures Blanked(a.children[i]) == Blanked(b.children[i]) {
      if Reorders(p, ctx, a) {
        OrderRestores(a.children, b.children, i);
      } else {
        assert Kids(p, ctx, a) == a.children && Kids(p, ctx, b) == b.children;
      }
    }
    assert Walk(p, ctx, a).text == Content(a) && Walk(p, ctx, a).tail == Tail(a) && Walk(p, ctx, a).tag == a.tag;
    assert Walk(p, ctx, b).text == Content(b) && Walk(p, ctx, b).tail == Tail(b) && Walk(p, ctx, b).tag == b.tag;
    assert Blanked(a).children == Blanked(b).children;
  }

  lemma {:induction false} NodesAgree(p: Policy, ctx: Ctx, a: Node, b: Node, at: seq<nat>)
    requires Walk(p, ctx, a) == Walk(p, ctx, b) && Meta(p, ctx, a, at) == Meta(p, ctx, b, at) && Accepts(p, ctx, b)
    ensures |a.children| == |b.children| && Below(ctx, a) == Below(ctx, b) && Reorders(p, ctx, a) == Reorders(p, ctx, b)
    ensures a.attrs == b.attrs
    ensures Reorders(p, ctx, a) ==> KeysOf(a.children) == KeysOf(b.children) && KeysFine(b.children)
  {
    EqualRoots(p, ctx, a, b);
    OwnAttrs(p, ctx, a, b, at);
  }

  lemma {:induction false} Lossless(p: Policy, ctx: Ctx, a: Node, b: Node, at: seq<nat>)
    requires Walk(p, ctx, a) == Walk(p, ctx, b) && Meta(p, ctx, a, at) == Meta(p, ctx, b, at) && Accepts(p, ctx, b)
    ensures Blanked(a) == Blanked(b)
    decreases a, 1
  {
    NodesAgree(p, ctx, a, b, at);
    forall i | 0 <= i < |a.children| ensures Blanked(Kids(p, ctx, a)[i]) == Blanked(Kids(p, ctx, b)[i]) {
      LosslessKid(p, ctx, a, b, at, i, Kids(p, ctx, a)[i], Kids(p, ctx, b)[i], Below(ctx, a));
    }
    BlankAssembles(p, ctx, a, b);
  }

  lemma {:induction false} LosslessKid(p: Policy, ctx: Ctx, a: Node, b: Node, at: seq<nat>, i: nat, ka: Node,
          kb: Node, below: Ctx)
    requires Walk(p, ctx, a) == Walk(p, ctx, b) && Meta(p, ctx, a, at) == Meta(p, ctx, b, at) && Accepts(p, ctx, b)
    requires i < |a.children| == |b.children| && Below(ctx, a) == Below(ctx, b) == below
    requires ka == Kids(p, ctx, a)[i] && kb == Kids(p, ctx, b)[i]
    ensures Blanked(ka) == Blanked(kb)
    decreases a, 0
  {
    KidsAgree(p, ctx, a, b, at, i, ka, kb, below);
    Lossless(p, below, ka, kb, at + [i]);
  }

  // Semantics and metadata together determine the project: two accepted
  // snapshots agree on both exactly when the trees differ in ignorable
  // whitespace only.
  lemma {:induction false} SnapshotIsLossless(p: Policy, a: Node, b: Node)
    requires Accepts(p, RootCtx(a), a) && Accepts(p, RootCtx(b), b)
    ensures Walk(p, RootCtx(a), a) == Walk(p, RootCtx(b), b) && Meta(p, RootCtx(a), a, []) == Meta(p, RootCtx(b), b, [])
      <==> Blanked(a) == Blanked(b)
  {
    if Walk(p, RootCtx(a), a) == Walk(p, RootCtx(b), b) && Meta(p, RootCtx(a), a, []) == Meta(p, RootCtx(b), b, []) {
      RootsAgree(p, a, b);
      Lossless(p, RootCtx(a), a, b, []);
    }
    if Blanked(a) == Blanked(b) {
      BlankFacts(p, RootCtx(a), a);
      BlankFacts(p, RootCtx(b), b);
      WalkIgnoresBlank(p, RootCtx(a), a);
      WalkIgnoresBlank(p, RootCtx(b), b);
      MetaIgnoresBlank(p, RootCtx(a), a, []);
      MetaIgnoresBlank(p, RootCtx(b), b, []);
    }
  }
}
