// Two snapshots compare equal exactly when the trees differ only in what the
// policy calls compiler metadata.
module FinalizationTheorems {
  import opened PyText
  import opened ProjectFinalization

  // ---- what the walk always keeps ----

  lemma {:induction false} NamesKept(p: Policy, ctx: Ctx, n: Node)
    ensures "name" !in Excluded(p, ctx, n) && "classid" !in Excluded(p, ctx, n)
    ensures n.tag == "paramlist" ==> "link" !in Excluded(p, ctx, n)
    ensures |ctx.tags| != 2 ==> "link" !in Excluded(p, ctx, n) && "value" !in Excluded(p, ctx, n)
  {}

  lemma {:induction false} GetKept(p: Policy, ctx: Ctx, n: Node, name: string)
    requires name !in Excluded(p, ctx, n)
    ensures Get(Walk(p, ctx, n), name) == Get(n, name)
  {}

  ghost predicate PathOk(path: seq<Hop>) {
    path != [] && path[|path| - 1].tag == "param" && forall i :: 0 <= i < |path| ==> path[i].tag != "call"
  }

  lemma {:induction false} HopKept(p: Policy, ctx: Ctx, hop: Hop, n: Node)
    ensures Matches(hop, Walk(p, ctx, n)) == Matches(hop, n)
  {
    NamesKept(p, ctx, n);
    GetKept(p, ctx, n, "name");
  }

  // A path lookup for a schematic parameter finds the same values before and
  // after masking: neither names, nor the values found, nor their order change.
  lemma {:induction false} FindKept(p: Policy, ctx: Ctx, path: seq<Hop>, kids: seq<Node>)
    requires PathOk(path) && |ctx.tags| + |path| >= 4
    ensures Find(path, WalkEach(p, ctx, kids)) == Find(path, kids)
    decreases |path|, |kids|
  {
    if kids != [] {
      var k, ws := kids[0], WalkEach(p, ctx, kids);
      assert ws[0] == Walk(p, ctx, k) && ws[1..] == WalkEach(p, ctx, kids[1..]);
      FindKept(p, ctx, path, kids[1..]);
      HopKept(p, ctx, path[0], k);
      if Matches(path[0], k) {
        if |path| == 1 {
          NamesKept(p, ctx, k);
          GetKept(p, ctx, k, "value");
        } else {
          assert Kids(p, ctx, k) == k.children;
          assert ws[0].children == WalkEach(p, Below(ctx, k), k.children);
          FindKept(p, Below(ctx, k), path[1..], k.children);
        }
      }
    }
  }

  lemma {:induction false} AutoKept(p: Policy, ctx: Ctx, n: Node, below: Ctx)
    requires OpensSchematic(ctx, n) && |below.tags| >= 2
    ensures AutoSequence(WalkEach(p, below, n.children)) == AutoSequence(n.children)
  {
    FindKept(p, below, AUTO_HOPS, n.children);
  }

  lemma {:induction false} MainAutoKept(p: Policy, ctx: Ctx, root: Node)
    requires ctx.tags == []
    ensures MainAuto(Walk(p, ctx, root)) == MainAuto(root)
  {
    assert Kids(p, ctx, root) == root.children;
    assert Walk(p, ctx, root).children == WalkEach(p, Below(ctx, root), root.children);
    FindKept(p, Below(ctx, root), MAIN_HOPS, root.children);
  }

  // The mask looks at a node's tag, three attributes and its parameter lookup only.
  lemma {:induction false} MaskCongruent(p: Policy, ctx: Ctx, a: Node, b: Node)
    requires a.tag == b.tag && Get(a, "name") == Get(b, "name") && Get(a, "classid") == Get(b, "classid")
    requires a.tag == "paramlist" ==> Get(a, "link") == Get(b, "link")
    requires OpensSchematic(ctx, a) ==> AutoSequence(a.children) == AutoSequence(b.children)
    ensures Excluded(p, ctx, a) == Excluded(p, ctx, b) && Below(ctx, a) == Below(ctx, b)
      && Reorders(p, ctx, a) == Reorders(p, ctx, b)
  {}

  // The mask, the context of the children and the decision to sort are
  // functions of the retained part of the tree alone.
  lemma {:induction false} MaskFromRetained(p: Policy, ctx: Ctx, n: Node)
    ensures Excluded(p, ctx, Walk(p, ctx, n)) == Excluded(p, ctx, n)
    ensures Below(ctx, Walk(p, ctx, n)) == Below(ctx, n)
    ensures Reorders(p, ctx, Walk(p, ctx, n)) == Reorders(p, ctx, n)
  {
    var w := Walk(p, ctx, n);
    NamesKept(p, ctx, n);
    GetKept(p, ctx, n, "name");
    GetKept(p, ctx, n, "classid");
    if n.tag == "paramlist" { GetKept(p, ctx, n, "link"); }
    if OpensSchematic(ctx, n) {
      assert Kids(p, ctx, n) == n.children;
      assert w.children == WalkEach(p, Below(ctx, n), n.children);
      AutoKept(p, ctx, n, Below(ctx, n));
    }
    MaskCongruent(p, ctx, w, n);
  }

  lemma {:induction false} KeyKept(p: Policy, ctx: Ctx, n: Node)
    requires |ctx.tags| != 2
    ensures KeyOf(Walk(p, ctx, n)) == KeyOf(n)
  {
    NamesKept(p, ctx, n);
    GetKept(p, ctx, n, "name");
    GetKept(p, ctx, n, "link");
  }

  // ---- sorting by unique keys is canonical and commutes with masking ----

  ghost predicate StrictlySorted(s: seq<Node>) {
    forall i, j :: 0 <= i < j < |s| ==> KeyLess(KeyOf(s[i]), KeyOf(s[j]))
  }

  ghost predicate UniqueKeys(s: seq<Node>) {
    forall i, j :: 0 <= i < j < |s| ==> KeyOf(s[i]) != KeyOf(s[j])
  }

  lemma {:induction false} InsertSorts(n: Node, s: seq<Node>)
    requires StrictlySorted(s) && forall k :: k in s ==> KeyOf(k) != KeyOf(n)
    ensures StrictlySorted(Insert(n, s))
  {
    var r := Insert(n, s);
    if s != [] {
      KeyTrichotomy(KeyOf(s[0]), KeyOf(n));
      if KeyLess(KeyOf(s[0]), KeyOf(n)) {
        InsertSorts(n, s[1..]);
        forall k | k in r[1..] ensures KeyLess(KeyOf(r[0]), KeyOf(k)) {
          assert k in multiset(Insert(n, s[1..]));
        }
      } else {
        forall k | k in s ensures KeyLess(KeyOf(n), KeyOf(k)) {
          if k != s[0] { KeyTransitive(KeyOf(n), KeyOf(s[0]), KeyOf(k)); }
        }
      }
    }
  }

  lemma {:induction false} SortSorts(kids: seq<Node>)
    requires UniqueKeys(kids)
    ensures StrictlySorted(SortByKey(kids))
  {
    if kids != [] {
      SortSorts(kids[1..]);
      forall k | k in SortByKey(kids[1..]) ensures KeyOf(k) != KeyOf(kids[0]) {
        assert k in multiset(kids[1..]);
      }
      InsertSorts(kids[0], SortByKey(kids[1..]));
    }
  }

  lemma {:induction false} LeastFirst(a: seq<Node>, b: seq<Node>)
    requires StrictlySorted(a) && StrictlySorted(b) && multiset(a) == multiset(b) && |a| > 0 && |b| > 0
    ensures a[0] == b[0]
  {
    assert a[0] in multiset(b) && b[0] in multiset(a);
    KeyTrichotomy(KeyOf(a[0]), KeyOf(b[0]));
  }

  lemma {:induction false} TailMultiset(s: seq<Node>)
    requires s != []
    ensures multiset(s[1..]) == multiset(s) - multiset{s[0]}
  {
    assert s == [s[0]] + s[1..];
  }

  lemma {:induction false} TailSorted(s: seq<Node>)
    requires StrictlySorted(s) && s != []
    ensures StrictlySorted(s[1..])
  {
    forall i, j | 0 <= i < j < |s[1..]| ensures KeyLess(KeyOf(s[1..][i]), KeyOf(s[1..][j])) {
      assert s[1..][i] == s[i + 1] && s[1..][j] == s[j + 1];
    }
  }

  lemma {:induction false} TailsAgree(a: seq<Node>, b: seq<Node>)
    requires StrictlySorted(a) && StrictlySorted(b) && multiset(a) == multiset(b) && |a| > 0 && |b| > 0
    ensures a[0] == b[0] && multiset(a[1..]) == multiset(b[1..]) && StrictlySorted(a[1..]) && StrictlySorted(b[1..])
  {
    LeastFirst(a, b);
    TailMultiset(a);
    TailMultiset(b);
    TailSorted(a);
    TailSorted(b);
  }

  lemma {:induction false} SortedUnique(a: seq<Node>, b: seq<Node>)
    requires StrictlySorted(a) && StrictlySorted(b) && multiset(a) == multiset(b)
    ensures a == b
  {
    assert |multiset(a)| == |a| && |multiset(b)| == |b|;
    if a != [] {
      TailsAgree(a, b);
      SortedUnique(a[1..], b[1..]);
      assert a == [a[0]] + a[1..] && b == [b[0]] + b[1..];
    }
  }

  lemma {:induction false} UniqueKeysTransfer(a: seq<Node>, b: seq<Node>)
    requires UniqueKeys(a) && multiset(a) == multiset(b)
    ensures UniqueKeys(b)
  {
    forall i, j | 0 <= i < j < |b| ensures KeyOf(b[i]) != KeyOf(b[j]) {
      if KeyOf(b[i]) == KeyOf(b[j]) {
        assert b[i] in multiset(a) && b[j] in multiset(a);
        assert b[i] == b[j];
        TwiceMeansTwo(b, i, j);
        OnceMeansOne(a, b[i]);
      }
    }
  }

  lemma {:induction false} TwiceMeansTwo(s: seq<Node>, i: nat, j: nat)
    requires i < j < |s| && s[i] == s[j]
    ensures multiset(s)[s[i]] >= 2
  {
    assert s == s[..j] + [s[j]] + s[j + 1..];
    assert s[i] in s[..j];
    assert multiset(s[..j])[s[i]] >= 1;
  }

  lemma {:induction false} OnceMeansOne(s: seq<Node>, n: Node)
    requires UniqueKeys(s) && n in s
    ensures multiset(s)[n] == 1
  {
    var i :| 0 <= i < |s| && s[i] == n;
    assert s == s[..i] + [s[i]] + s[i + 1..];
    assert n !in s[..i] && n !in s[i + 1..];
  }

  lemma {:induction false} SortCanonical(a: seq<Node>, b: seq<Node>)
    requires UniqueKeys(a) && multiset(a) == multiset(b)
    ensures SortByKey(a) == SortByKey(b)
  {
    UniqueKeysTransfer(a, b);
    SortSorts(a);
    SortSorts(b);
    SortedUnique(SortByKey(a), SortByKey(b));
  }

  function MapAll(f: Node -> Node, s: seq<Node>): seq<Node> {
    if s == [] then [] else [f(s[0])] + MapAll(f, s[1..])
  }

  ghost predicate KeepsKeys(f: Node -> Node) { forall n :: KeyOf(f(n)) == KeyOf(n) }

  lemma {:induction false} InsertCommutes(f: Node -> Node, n: Node, s: seq<Node>)
    requires KeepsKeys(f)
    ensures MapAll(f, Insert(n, s)) == Insert(f(n), MapAll(f, s))
  {
    assert KeyOf(f(n)) == KeyOf(n);
    if s != [] {
      assert KeyOf(f(s[0])) == KeyOf(s[0]);
      assert MapAll(f, s) == [f(s[0])] + MapAll(f, s[1..]);
      if KeyLess(KeyOf(s[0]), KeyOf(n)) {
        InsertCommutes(f, n, s[1..]);
        assert ([s[0]] + Insert(n, s[1..]))[1..] == Insert(n, s[1..]);
      } else {
        assert ([n] + s)[1..] == s;
      }
    }
  }

  lemma {:induction false} SortMapCommutes(f: Node -> Node, kids: seq<Node>)
    requires KeepsKeys(f)
    ensures MapAll(f, SortByKey(kids)) == SortByKey(MapAll(f, kids))
  {
    if kids != [] {
      SortMapCommutes(f, kids[1..]);
      InsertCommutes(f, kids[0], SortByKey(kids[1..]));
    }
  }

  lemma {:induction false} WalkEachIsMap(p: Policy, ctx: Ctx, f: Node -> Node, kids: seq<Node>)
    requires forall n :: f(n) == Walk(p, ctx, n)
    ensures WalkEach(p, ctx, kids) == MapAll(f, kids)
  {
    MapAllAt(f, kids);
    var walked, mapped := WalkEach(p, ctx, kids), MapAll(f, kids);
    forall i | 0 <= i < |kids| ensures walked[i] == mapped[i] {
      assert walked[i] == Walk(p, ctx, kids[i]) && mapped[i] == f(kids[i]);
    }
  }

  lemma {:induction false} MapAllAt(f: Node -> Node, s: seq<Node>)
    ensures |MapAll(f, s)| == |s| && forall i :: 0 <= i < |s| ==> MapAll(f, s)[i] == f(s[i])
  {
    if s != [] {
      MapAllAt(f, s[1..]);
      forall i | 0 <= i < |s| ensures MapAll(f, s)[i] == f(s[i]) {
        if i > 0 { assert MapAll(f, s)[i] == MapAll(f, s[1..])[i - 1] && s[1..][i - 1] == s[i]; }
      }
    }
  }

  lemma {:induction false} SortCommutes(p: Policy, ctx: Ctx, kids: seq<Node>)
    requires |ctx.tags| != 2
    ensures WalkEach(p, ctx, SortByKey(kids)) == SortByKey(WalkEach(p, ctx, kids))
  {
    var f := n => Walk(p, ctx, n);
    forall n ensures KeyOf(f(n)) == KeyOf(n) { KeyKept(p, ctx, n); }
    SortMapCommutes(f, kids);
    WalkEachIsMap(p, ctx, f, kids);
    WalkEachIsMap(p, ctx, f, SortByKey(kids));
  }

  // ---- the relation the policy is meant to decide ----

  predicate SameText(a: Node, b: Node) {
    a.text == b.text || (a.children != [] && Ignorable(a.text) && Ignorable(b.text))
  }

  predicate SameTail(a: Node, b: Node) {
    a.tail == b.tail || (IgnorableTail(a.tail) && IgnorableTail(b.tail))
  }

  // b is a up to compiler metadata: same tags, same attributes outside the
  // mask of a, same text up to ignorable whitespace, and pairwise similar
  // children, in any order below a sorted Main call.  Only a decides the mask.
  ghost predicate Similar(p: Policy, ctx: Ctx, a: Node, b: Node)
    decreases a
  {
    && a.tag == b.tag
    && (forall name :: name !in Excluded(p, ctx, a) ==> Get(a, name) == Get(b, name))
    && SameText(a, b) && SameTail(a, b)
    && |a.children| == |b.children|
    && exists bs: seq<Node> ::
         && Reordering(p, ctx, a, bs, b.children)
         && forall i | 0 <= i < |a.children| :: Similar(p, Below(ctx, a), a.children[i], bs[i])
  }

  ghost predicate Reordering(p: Policy, ctx: Ctx, a: Node, bs: seq<Node>, original: seq<Node>) {
    |bs| == |a.children| && (if Reorders(p, ctx, a) then multiset(bs) == multiset(original) else bs == original)
  }

  ghost predicate Paired(ys: seq<Node>, zs: seq<Node>, y: Node, z: Node) {
    exists j :: 0 <= j < |ys| && j < |zs| && ys[j] == y && zs[j] == z
  }

  lemma {:induction false} PairedWithout(ys: seq<Node>, zs: seq<Node>, j: nat, y: Node, z: Node)
    requires j < |ys| == |zs| && Paired(ys[..j] + ys[j + 1..], zs[..j] + zs[j + 1..], y, z)
    ensures Paired(ys, zs, y, z)
  {
    var ys', zs' := ys[..j] + ys[j + 1..], zs[..j] + zs[j + 1..];
    var i :| 0 <= i < |ys'| && ys'[i] == y && zs'[i] == z;
    var k := if i < j then i else i + 1;
    assert ys[k] == y && zs[k] == z;
  }

  lemma {:induction false} RemoveAt(s: seq<Node>, j: nat)
    requires j < |s|
    ensures multiset(s[..j] + s[j + 1..]) == multiset(s) - multiset{s[j]}
    ensures multiset(s) == multiset(s[..j] + s[j + 1..]) + multiset{s[j]}
  {
    assert s == s[..j] + [s[j]] + s[j + 1..];
  }

  lemma {:induction false} PairFirst(xs: seq<Node>, ys: seq<Node>) returns (j: nat)
    requires multiset(xs) == multiset(ys) && xs != []
    ensures j < |ys| && ys[j] == xs[0] && multiset(xs[1..]) == multiset(ys[..j] + ys[j + 1..])
  {
    assert xs[0] in multiset(ys);
    j :| 0 <= j < |ys| && ys[j] == xs[0];
    TailMultiset(xs);
    RemoveAt(ys, j);
  }

  // Carrying the pairing of ys with zs over to a permutation xs of ys.
  lemma {:induction false} Rearrange(xs: seq<Node>, ys: seq<Node>, zs: seq<Node>) returns (ws: seq<Node>)
    requires multiset(xs) == multiset(ys) && |xs| == |ys| == |zs|
    ensures multiset(ws) == multiset(zs) && |ws| == |xs|
    ensures forall i | 0 <= i < |xs| :: Paired(ys, zs, xs[i], ws[i])
  {
    if xs == [] {
      ws := [];
    } else {
      var j := PairFirst(xs, ys);
      var ys', zs' := ys[..j] + ys[j + 1..], zs[..j] + zs[j + 1..];
      var rest := Rearrange(xs[1..], ys', zs');
      RemoveAt(zs, j);
      ws := [zs[j]] + rest;
      PairsExtend(xs, ys, zs, j, rest);
    }
  }

  lemma {:induction false} PairsExtend(xs: seq<Node>, ys: seq<Node>, zs: seq<Node>, j: nat, rest: seq<Node>)
    requires j < |ys| == |zs| && xs != [] && ys[j] == xs[0] && |rest| == |xs| - 1
    requires forall i | 0 <= i < |rest| :: Paired(ys[..j] + ys[j + 1..], zs[..j] + zs[j + 1..], xs[1..][i], rest[i])
    ensures forall i | 0 <= i < |xs| :: Paired(ys, zs, xs[i], ([zs[j]] + rest)[i])
  {
    var all := [zs[j]] + rest;
    forall i | 0 <= i < |xs| ensures Paired(ys, zs, xs[i], all[i]) {
      if i == 0 {
        assert ys[j] == xs[0] && zs[j] == all[0];
      } else {
        assert xs[1..][i - 1] == xs[i] && rest[i - 1] == all[i];
        PairedWithout(ys, zs, j, xs[i], all[i]);
      }
    }
  }

  lemma {:induction false} EqualRoots(p: Policy, ctx: Ctx, a: Node, b: Node)
    requires Walk(p, ctx, a) == Walk(p, ctx, b)
    ensures a.tag == b.tag && SameText(a, b) && SameTail(a, b) && |a.children| == |b.children|
    ensures Excluded(p, ctx, a) == Excluded(p, ctx, b) && Below(ctx, a) == Below(ctx, b)
      && Reorders(p, ctx, a) == Reorders(p, ctx, b)
    ensures forall name :: name !in Excluded(p, ctx, a) ==> Get(a, name) == Get(b, name)
  {
    MaskFromRetained(p, ctx, a);
    MaskFromRetained(p, ctx, b);
    assert |Walk(p, ctx, a).children| == |a.children| && |Walk(p, ctx, b).children| == |b.children|;
    forall name | name !in Excluded(p, ctx, a) ensures Get(a, name) == Get(b, name) {
      GetKept(p, ctx, a, name);
      GetKept(p, ctx, b, name);
    }
  }

  lemma {:induction false} EqualImpliesSimilar(p: Policy, ctx: Ctx, a: Node, b: Node)
    requires Walk(p, ctx, a) == Walk(p, ctx, b)
    ensures Similar(p, ctx, a, b)
    decreases a
  {
    EqualRoots(p, ctx, a, b);
    var below, ka, kb := Below(ctx, a), Kids(p, ctx, a), Kids(p, ctx, b);
    forall i | 0 <= i < |ka| ensures Similar(p, below, ka[i], kb[i]) {
      assert ka[i] in a.children;
      assert Walk(p, ctx, a).children[i] == Walk(p, below, ka[i])
        && Walk(p, ctx, b).children[i] == Walk(p, below, kb[i]);
      EqualImpliesSimilar(p, below, ka[i], kb[i]);
    }
    var bs := Rearrange(a.children, ka, kb);
    if !Reorders(p, ctx, a) { bs := b.children; }
    forall i | 0 <= i < |a.children| ensures Similar(p, below, a.children[i], bs[i]) {
      if Reorders(p, ctx, a) {
        var j :| 0 <= j < |ka| && ka[j] == a.children[i] && kb[j] == bs[i];
      }
    }
    assert Reordering(p, ctx, a, bs, b.children);
  }

  lemma {:induction false} SimilarRoots(p: Policy, ctx: Ctx, a: Node, b: Node, bs: seq<Node>)
    requires Similar(p, ctx, a, b) && Reordering(p, ctx, a, bs, b.children)
    requires WalkEach(p, Below(ctx, a), a.children) == WalkEach(p, Below(ctx, a), bs)
    ensures Excluded(p, ctx, a) == Excluded(p, ctx, b) && Below(ctx, a) == Below(ctx, b)
      && Reorders(p, ctx, a) == Reorders(p, ctx, b)
  {
    NamesKept(p, ctx, a);
    assert Get(a, "name") == Get(b, "name") && Get(a, "classid") == Get(b, "classid");
    if a.tag == "paramlist" { assert Get(a, "link") == Get(b, "link"); }
    if OpensSchematic(ctx, a) {
      AutoKept(p, ctx, a, Below(ctx, a));
      AutoKept(p, ctx, b, Below(ctx, a));
    }
    MaskCongruent(p, ctx, a, b);
  }

  // Reordered children with equal walks come out equal once sorted.
  lemma {:induction false} SimilarKids(p: Policy, ctx: Ctx, a: Node, b: Node, bs: seq<Node>)
    requires Accepts(p, ctx, a) && Reordering(p, ctx, a, bs, b.children) && Reorders(p, ctx, a) == Reorders(p, ctx, b)
    requires WalkEach(p, Below(ctx, a), a.children) == WalkEach(p, Below(ctx, a), bs)
    ensures WalkEach(p, Below(ctx, a), Kids(p, ctx, a)) == WalkEach(p, Below(ctx, a), Kids(p, ctx, b))
  {
    var below := Below(ctx, a);
    if Reorders(p, ctx, a) {
      SortCommutes(p, below, a.children);
      SortCommutes(p, below, bs);
      SameWalkKeys(p, below, a.children, bs);
      SortCanonical(bs, b.children);
    }
  }

  lemma {:induction false} SameWalkKeys(p: Policy, ctx: Ctx, xs: seq<Node>, ys: seq<Node>)
    requires |ctx.tags| != 2 && WalkEach(p, ctx, xs) == WalkEach(p, ctx, ys)
    ensures |xs| == |ys| && forall i :: 0 <= i < |ys| ==> KeyOf(ys[i]) == KeyOf(xs[i])
  {
    assert |WalkEach(p, ctx, xs)| == |xs|;
    forall i | 0 <= i < |ys| ensures KeyOf(ys[i]) == KeyOf(xs[i]) {
      assert WalkEach(p, ctx, xs)[i] == WalkEach(p, ctx, ys)[i];
      KeyKept(p, ctx, xs[i]);
      KeyKept(p, ctx, ys[i]);
    }
  }

  lemma {:induction false} SameRetained(p: Policy, ctx: Ctx, a: Node, b: Node)
    requires Excluded(p, ctx, a) == Excluded(p, ctx, b)
    requires forall name :: name !in Excluded(p, ctx, a) ==> Get(a, name) == Get(b, name)
    ensures Retained(p, ctx, a) == Retained(p, ctx, b)
  {
    assert forall name :: name in Retained(p, ctx, a) ==> Get(a, name) == Get(b, name);
    assert forall name :: name in Retained(p, ctx, b) ==> Get(a, name) == Get(b, name);
  }

  lemma {:induction false} WalkSplits(p: Policy, ctx: Ctx, n: Node)
    ensures Walk(p, ctx, n)
         == Node(n.tag, Retained(p, ctx, n), Content(n), Tail(n), WalkEach(p, Below(ctx, n), Kids(p, ctx, n)))
  {
    assert Walk(p, ctx, n).children == WalkEach(p, Below(ctx, n), Kids(p, ctx, n));
  }

  lemma {:induction false} SimilarWalks(p: Policy, ctx: Ctx, a: Node, b: Node, bs: seq<Node>)
    requires Similar(p, ctx, a, b) && Accepts(p, ctx, a) && Reordering(p, ctx, a, bs, b.children)
    requires WalkEach(p, Below(ctx, a), a.children) == WalkEach(p, Below(ctx, a), bs)
    ensures Walk(p, ctx, a) == Walk(p, ctx, b)
  {
    SimilarRoots(p, ctx, a, b, bs);
    SimilarKids(p, ctx, a, b, bs);
    SameRetained(p, ctx, a, b);
    WalkSplits(p, ctx, a);
    WalkSplits(p, ctx, b);
  }

  lemma {:induction false} SimilarImpliesEqual(p: Policy, ctx: Ctx, a: Node, b: Node)
    requires Similar(p, ctx, a, b) && Accepts(p, ctx, a)
    ensures Walk(p, ctx, a) == Walk(p, ctx, b)
    decreases a
  {
    var below := Below(ctx, a);
    var bs: seq<Node> :| Reordering(p, ctx, a, bs, b.children)
      && forall i | 0 <= i < |a.children| :: Similar(p, below, a.children[i], bs[i]);
    forall i | 0 <= i < |a.children| ensures Walk(p, below, a.children[i]) == Walk(p, below, bs[i]) {
      assert a.children[i] in a.children;
      SimilarImpliesEqual(p, below, a.children[i], bs[i]);
    }
    assert WalkEach(p, below, a.children) == WalkEach(p, below, bs);
    SimilarWalks(p, ctx, a, b, bs);
  }

  // ---- main results ----

  // Unique identities carry over to a similar, possibly reordered, child list.
  lemma {:induction false} KeysTransfer(p: Policy, ctx: Ctx, xs: seq<Node>, ys: seq<Node>, zs: seq<Node>)
    requires |ctx.tags| != 2 && |xs| == |ys| && KeysFine(xs) && multiset(ys) == multiset(zs)
    requires forall i | 0 <= i < |xs| :: Walk(p, ctx, xs[i]) == Walk(p, ctx, ys[i])
    ensures KeysFine(zs)
  {
    forall i | 0 <= i < |ys| ensures KeyOf(ys[i]) == KeyOf(xs[i]) && ys[i].tag == xs[i].tag {
      KeyKept(p, ctx, xs[i]);
      KeyKept(p, ctx, ys[i]);
      assert Walk(p, ctx, xs[i]).tag == xs[i].tag && Walk(p, ctx, ys[i]).tag == ys[i].tag;
    }
    UniqueKeysTransfer(ys, zs);
    forall i | 0 <= i < |zs| ensures zs[i].tag == "call" && KeyOf(zs[i]).0 != "" && KeyOf(zs[i]).1 != "" {
      assert zs[i] in multiset(ys);
      var j :| 0 <= j < |ys| && ys[j] == zs[i];
      assert KeyOf(ys[j]) == KeyOf(xs[j]);
    }
  }

  lemma {:induction false} SimilarChildren(p: Policy, ctx: Ctx, a: Node, b: Node) returns (bs: seq<Node>)
    requires Similar(p, ctx, a, b) && Accepts(p, ctx, a)
    ensures Reordering(p, ctx, a, bs, b.children)
    ensures forall i | 0 <= i < |a.children| ::
      && Accepts(p, Below(ctx, a), a.children[i])
      && Similar(p, Below(ctx, a), a.children[i], bs[i])
      && Walk(p, Below(ctx, a), a.children[i]) == Walk(p, Below(ctx, a), bs[i])
  {
    bs :| Reordering(p, ctx, a, bs, b.children)
      && forall i | 0 <= i < |a.children| :: Similar(p, Below(ctx, a), a.children[i], bs[i]);
    forall i | 0 <= i < |a.children|
      ensures Accepts(p, Below(ctx, a), a.children[i])
        && Walk(p, Below(ctx, a), a.children[i]) == Walk(p, Below(ctx, a), bs[i])
    {
      assert a.children[i] in a.children;
      SimilarImpliesEqual(p, Below(ctx, a), a.children[i], bs[i]);
    }
  }

  lemma {:induction false} SimilarAccepts(p: Policy, ctx: Ctx, a: Node, b: Node)
    requires Similar(p, ctx, a, b) && Accepts(p, ctx, a)
    ensures Accepts(p, ctx, b)
    decreases a
  {
    var bs := SimilarChildren(p, ctx, a, b);
    var below := Below(ctx, a);
    assert Below(ctx, b) == below && Reorders(p, ctx, b) == Reorders(p, ctx, a) by {
      SimilarImpliesEqual(p, ctx, a, b);
      EqualRoots(p, ctx, a, b);
    }
    forall k | k in b.children ensures Accepts(p, below, k) {
      assert k in multiset(bs);
      var i :| 0 <= i < |bs| && bs[i] == k;
      SimilarAccepts(p, below, a.children[i], bs[i]);
    }
    if Reorders(p, ctx, a) { KeysTransfer(p, below, a.children, bs, b.children); }
  }

  lemma {:induction false} RootsAgree(p: Policy, a: Node, b: Node)
    requires Walk(p, RootCtx(a), a) == Walk(p, RootCtx(b), b) || Walk(p, RootCtx(a), a) == Walk(p, RootCtx(a), b)
    ensures RootCtx(a) == RootCtx(b)
  {
    forall ctx: Ctx, n: Node | ctx.tags == []
      ensures MainAuto(Walk(p, ctx, n)) == MainAuto(n) && Get(Walk(p, ctx, n), "name") == Get(n, "name")
    {
      MainAutoKept(p, ctx, n);
      NamesKept(p, ctx, n);
      GetKept(p, ctx, n, "name");
    }
  }

  // compare_project_finalization accepts two snapshots exactly when the
  // authored tree is a project the policy accepts and the finalized tree
  // differs from it only in compiler metadata.
  lemma {:induction false} ComparisonDecidesSimilarity(p: Policy, authored: Node, finalized: Node)
    ensures SameFinalization(SnapshotOf(p, authored), SnapshotOf(p, finalized))
      <==> authored.tag == "project" && Accepts(p, RootCtx(authored), authored)
           && Similar(p, RootCtx(authored), authored, finalized)
  {
    var ctx := RootCtx(authored);
    if SameFinalization(SnapshotOf(p, authored), SnapshotOf(p, finalized)) {
      RootsAgree(p, authored, finalized);
      EqualImpliesSimilar(p, ctx, authored, finalized);
    }
    if authored.tag == "project" && Accepts(p, ctx, authored) && Similar(p, ctx, authored, finalized) {
      SimilarImpliesEqual(p, ctx, authored, finalized);
      RootsAgree(p, authored, finalized);
      SimilarAccepts(p, ctx, authored, finalized);
    }
  }

  // Although Similar reads the mask off one side only, on accepted projects it
  // is an equivalence.
  ghost predicate SameProject(p: Policy, a: Node, b: Node) {
    a.tag == "project" && Accepts(p, RootCtx(a), a) && Similar(p, RootCtx(a), a, b)
  }

  lemma {:induction false} SameProjectIsEquivalence(p: Policy, a: Node, b: Node, c: Node)
    ensures SameProject(p, a, b) ==> SameProject(p, b, a)
    ensures SameProject(p, a, b) && SameProject(p, b, c) ==> SameProject(p, a, c)
    ensures a.tag == "project" && Accepts(p, RootCtx(a), a) ==> SameProject(p, a, a)
  {
    ComparisonDecidesSimilarity(p, a, b);
    ComparisonDecidesSimilarity(p, b, a);
    ComparisonDecidesSimilarity(p, b, c);
    ComparisonDecidesSimilarity(p, a, c);
    ComparisonDecidesSimilarity(p, a, a);
  }

  // ---- the policies are nested ----

  predicate Finer(p: Policy, q: Policy) { p == q || p == Base || (p == GeneratedV1 && q == GeneratedV2) }

  lemma {:induction false} SimilarCoarsens(p: Policy, q: Policy, ctx: Ctx, a: Node, b: Node)
    requires Finer(p, q) && Similar(p, ctx, a, b)
    ensures Similar(q, ctx, a, b)
    decreases a
  {
    var below := Below(ctx, a);
    var bs: seq<Node> :| Reordering(p, ctx, a, bs, b.children)
      && forall i | 0 <= i < |a.children| :: Similar(p, below, a.children[i], bs[i]);
    forall i | 0 <= i < |a.children| ensures Similar(q, below, a.children[i], bs[i]) {
      SimilarCoarsens(p, q, below, a.children[i], bs[i]);
    }
    assert Excluded(p, ctx, a) <= Excluded(q, ctx, a);
    assert Reordering(q, ctx, a, bs, b.children);
  }

  // Equal under a finer policy means equal under a coarser one, provided the
  // coarser one accepts either tree (only version 2 can refuse).
  lemma {:induction false} PoliciesNested(p: Policy, q: Policy, a: Node, b: Node)
    requires Finer(p, q) && SameFinalization(SnapshotOf(p, a), SnapshotOf(p, b))
    requires Accepts(q, RootCtx(a), a) || Accepts(q, RootCtx(b), b)
    ensures SameFinalization(SnapshotOf(q, a), SnapshotOf(q, b))
  {
    ComparisonDecidesSimilarity(p, a, b);
    ComparisonDecidesSimilarity(p, b, a);
    if Accepts(q, RootCtx(a), a) {
      SimilarCoarsens(p, q, RootCtx(a), a, b);
      ComparisonDecidesSimilarity(q, a, b);
    } else {
      SimilarCoarsens(p, q, RootCtx(b), b, a);
      ComparisonDecidesSimilarity(q, b, a);
    }
  }

  lemma {:induction false} OnlyVersion2Refuses(p: Policy, ctx: Ctx, n: Node)
    requires p != GeneratedV2
    ensures Accepts(p, ctx, n)
    decreases n
  {
    forall k | k in n.children ensures Accepts(p, Below(ctx, n), k) { OnlyVersion2Refuses(p, Below(ctx, n), k); }
  }
}
