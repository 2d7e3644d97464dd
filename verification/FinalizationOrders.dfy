// The verdict under every policy: the calls that may be reordered are put in
// some order, and then every node agrees with the one at its place.
module FinalizationOrders {
  import opened Options
  import opened ProjectFinalization
  import opened FinalizationTheorems
  import opened FinalizationPaths
  import opened FinalizationPolicy
  import opened FinalizationVerdict

  // c is b with the calls that may be reordered, by place in the authored file
  // root, in some order.
  ghost predicate Rearranged(p: Policy, root: Node, path: Path, c: Node, b: Node)
    decreases c
  {
    c == b.(children := c.children) && |c.children| == |b.children|
    && if Within(root, path) && Reordered(p, root, path) then multiset(c.children) == multiset(b.children)
       else forall i :: 0 <= i < |c.children| ==> Rearranged(p, root, path + [i], c.children[i], b.children[i])
  }

  // At and below this depth no call may be reordered.
  ghost predicate KeptFrom(p: Policy, root: Node, depth: nat) {
    forall more: Path :: Within(root, more) && |more| >= depth ==> !Reordered(p, root, more)
  }

  lemma {:induction false} KeptBelowCalls(p: Policy, root: Node)
    ensures KeptFrom(p, root, 4)
  {
    assert |["project", "hierarchy", "call"]| == 3;
    forall more: Path | Within(root, more) && |more| >= 4 ensures !Reordered(p, root, more) {
      assert |TagsAbove(root, more)| == |more|;
    }
  }

  lemma {:induction false} KeptIsSame(p: Policy, root: Node, path: Path, c: Node, b: Node)
    requires KeptFrom(p, root, |path|) && Rearranged(p, root, path, c, b)
    ensures c == b
    decreases c
  {
    forall i | 0 <= i < |c.children| ensures c.children[i] == b.children[i] {
      KeptIsSame(p, root, path + [i], c.children[i], b.children[i]);
    }
    assert c.children == b.children;
  }

  lemma {:induction false} ItselfRearranged(p: Policy, root: Node, path: Path, c: Node)
    ensures Rearranged(p, root, path, c, c)
    decreases c
  {
    forall i | 0 <= i < |c.children| ensures Rearranged(p, root, path + [i], c.children[i], c.children[i]) {
      ItselfRearranged(p, root, path + [i], c.children[i]);
    }
  }

  // ---- from agreement to similarity ----

  lemma {:induction false} HeadSimilar(p: Policy, root: Node, path: Path, c: Node, b: Node)
    requires Within(root, path) && NodeAgrees(p, root, path, c) && c == b.(children := c.children)
    requires |c.children| == |b.children|
    ensures var ctx, n := CtxAt(RootCtx(root), root, path), NodeAt(root, path);
            n.tag == b.tag && SameText(n, b) && SameTail(n, b) && |n.children| == |b.children|
            && forall name :: name !in Excluded(p, ctx, n) ==> Get(n, name) == Get(b, name)
  {
    var ctx, n := CtxAt(RootCtx(root), root, path), NodeAt(root, path);
    TextsAgree(n, c);
    forall name | name !in Excluded(p, ctx, n) ensures Get(n, name) == Get(b, name) {
      ExcludedIsListed(p, root, path, name);
      assert Get(c, name) == Get(b, name);
    }
  }

  lemma {:induction false} ArrangedIsSimilar(p: Policy, root: Node, path: Path, c: Node, b: Node)
    requires Within(root, path) && AgreesBelow(p, root, path, c) && Rearranged(p, root, path, c, b)
    ensures Similar(p, CtxAt(RootCtx(root), root, path), NodeAt(root, path), b)
    decreases NodeAt(root, path)
  {
    var ctx, n := CtxAt(RootCtx(root), root, path), NodeAt(root, path);
    AgreesHere(p, root, path, c);
    HeadSimilar(p, root, path, c, b);
    ReordersIsReordered(p, root, path);
    var bs := if Reordered(p, root, path) then c.children else b.children;
    forall i: nat | i < |n.children| ensures Similar(p, Below(ctx, n), n.children[i], bs[i]) {
      AgreesOneDown(p, root, path, c, i);
      CtxSnoc(RootCtx(root), root, path, i);
      if Reordered(p, root, path) { ItselfRearranged(p, root, path + [i], c.children[i]); }
      ArrangedIsSimilar(p, root, path + [i], c.children[i], bs[i]);
    }
    assert Reordering(p, ctx, n, bs, b.children);
  }

  // ---- and back ----

  lemma {:induction false} HeadAgrees(p: Policy, root: Node, path: Path, c: Node, b: Node)
    requires Within(root, path) && c == b.(children := c.children) && |c.children| == |b.children|
    requires Similar(p, CtxAt(RootCtx(root), root, path), NodeAt(root, path), b)
    ensures NodeAgrees(p, root, path, c)
  {
    var n := NodeAt(root, path);
    TextsAgree(n, b);
    forall name ensures Get(n, name) == Get(c, name) || Listed(p, root, path, name) {
      ExcludedIsListed(p, root, path, name);
      assert Get(c, name) == Get(b, name);
    }
  }

  ghost predicate KidArranged(p: Policy, root: Node, path: Path, i: nat, c: Node, b: Node)
    requires Within(root, path)
  {
    i < |NodeAt(root, path).children| && Within(root, path + [i])
    && NodeAt(root, path + [i]) == NodeAt(root, path).children[i]
    && Rearranged(p, root, path + [i], c, b) && AgreesBelow(p, root, path + [i], c)
  }

  lemma {:induction false} AgreesJoin(p: Policy, root: Node, path: Path, c: Node, bs: seq<Node>)
    requires Within(root, path) && NodeAgrees(p, root, path, c) && |bs| == |c.children|
    requires forall i :: 0 <= i < |bs| ==> KidArranged(p, root, path, i, c.children[i], bs[i])
    ensures AgreesBelow(p, root, path, c)
  {
    var n := NodeAt(root, path);
    forall more: Path | Within(n, more)
      ensures Within(c, more) && Within(root, path + more) && NodeAgrees(p, root, path + more, NodeAt(c, more))
    {
      if more == [] {
        assert path + more == path;
      } else {
        assert KidArranged(p, root, path, more[0], c.children[more[0]], bs[more[0]]);
        assert path + more == path + [more[0]] + more[1..];
      }
    }
  }

  ghost predicate KidsSimilar(p: Policy, ctx: Ctx, kids: seq<Node>, bs: seq<Node>, k: nat) {
    k <= |kids| == |bs| && forall i :: 0 <= i < k ==> Similar(p, ctx, kids[i], bs[i])
  }

  // The first k children.
  lemma {:induction false} KidsArranged(p: Policy, root: Node, path: Path, bs: seq<Node>, k: nat)
    returns (cs: seq<Node>)
    requires Within(root, path)
    requires var n := NodeAt(root, path); KidsSimilar(p, Below(CtxAt(RootCtx(root), root, path), n), n.children, bs, k)
    ensures |cs| == k && forall i :: 0 <= i < k ==> KidArranged(p, root, path, i, cs[i], bs[i])
    decreases NodeAt(root, path), 0, k
  {
    cs := [];
    if k > 0 {
      var front := KidsArranged(p, root, path, bs, k - 1);
      var c := OneArranged(p, root, path, bs, k - 1);
      cs := front + [c];
      forall i | 0 <= i < k ensures KidArranged(p, root, path, i, cs[i], bs[i]) {
        if i < k - 1 { assert cs[i] == front[i]; } else { assert cs[i] == c; }
      }
    }
  }

  lemma {:induction false} OneArranged(p: Policy, root: Node, path: Path, bs: seq<Node>, i: nat) returns (c: Node)
    requires Within(root, path)
    requires var n := NodeAt(root, path);
             KidsSimilar(p, Below(CtxAt(RootCtx(root), root, path), n), n.children, bs, i + 1)
    ensures KidArranged(p, root, path, i, c, bs[i])
    decreases NodeAt(root, path), 0, 0
  {
    KidAt(root, path, i);
    c := SimilarIsArranged(p, root, path + [i], bs[i]);
  }

  lemma {:induction false} KidAt(root: Node, path: Path, i: nat)
    requires Within(root, path) && i < |NodeAt(root, path).children|
    ensures Within(root, path + [i]) && NodeAt(root, path + [i]) == NodeAt(root, path).children[i]
    ensures CtxAt(RootCtx(root), root, path + [i]) == Below(CtxAt(RootCtx(root), root, path), NodeAt(root, path))
  {
    WithinSnoc(root, path, i);
    CtxSnoc(RootCtx(root), root, path, i);
  }

  lemma {:induction false} SimilarIsArranged(p: Policy, root: Node, path: Path, b: Node) returns (c: Node)
    requires Within(root, path) && Similar(p, CtxAt(RootCtx(root), root, path), NodeAt(root, path), b)
    ensures Rearranged(p, root, path, c, b) && AgreesBelow(p, root, path, c)
    decreases NodeAt(root, path), 1, 0
  {
    var ctx, n := CtxAt(RootCtx(root), root, path), NodeAt(root, path);
    var bs: seq<Node> :| Reordering(p, ctx, n, bs, b.children)
      && forall k | 0 <= k < |n.children| :: Similar(p, Below(ctx, n), n.children[k], bs[k]);
    assert KidsSimilar(p, Below(ctx, n), n.children, bs, |n.children|);
    var cs := KidsArranged(p, root, path, bs, |n.children|);
    c := b.(children := cs);
    HeadAgrees(p, root, path, c, b);
    AgreesJoin(p, root, path, c, bs);
    ReordersIsReordered(p, root, path);
    ArrangedJoins(p, root, path, cs, bs, b);
  }

  lemma {:induction false} ArrangedJoins(p: Policy, root: Node, path: Path, cs: seq<Node>, bs: seq<Node>, b: Node)
    requires Within(root, path) && |cs| == |bs| == |b.children|
    requires forall i :: 0 <= i < |cs| ==> KidArranged(p, root, path, i, cs[i], bs[i])
    requires if Reordered(p, root, path) then multiset(bs) == multiset(b.children) else bs == b.children
    ensures Rearranged(p, root, path, b.(children := cs), b)
  {
    if Reordered(p, root, path) { OrderKept(p, root, path, cs, bs); }
  }

  // Below reordered calls nothing is reordered again.
  lemma {:induction false} OrderKept(p: Policy, root: Node, path: Path, cs: seq<Node>, bs: seq<Node>)
    requires Within(root, path) && Reordered(p, root, path) && |cs| == |bs|
    requires forall j :: 0 <= j < |cs| ==> Rearranged(p, root, path + [j], cs[j], bs[j])
    ensures cs == bs
  {
    KeptBelowCalls(p, root);
    assert |TagsAbove(root, path)| == 3;
    forall j | 0 <= j < |cs| ensures cs[j] == bs[j] { KeptIsSame(p, root, path + [j], cs[j], bs[j]); }
  }

  // ---- the verdict ----

  // The comparison accepts exactly a project whose calls that may be reordered
  // have identities of their own, and a finalized file that, with those calls
  // in some order, agrees with it at every node.
  lemma {:induction false} VerdictDecided(p: Policy, authored: Node, finalized: Node)
    ensures Compares(p, authored, finalized) <==>
            authored.tag == "project" && (forall path: Path :: IdentifiedAt(p, authored, path))
            && exists c :: Rearranged(p, authored, [], c, finalized) && AgreesEverywhere(p, authored, c)
  {
    TakenExactly(p, authored);
    ComparisonDecidesSimilarity(p, authored, finalized);
    forall more: Path ensures [] + more == more {}
    if Compares(p, authored, finalized) {
      var c := SimilarIsArranged(p, authored, [], finalized);
      assert AgreesEverywhere(p, authored, c);
    }
    if c :| Rearranged(p, authored, [], c, finalized) && AgreesEverywhere(p, authored, c) {
      ArrangedIsSimilar(p, authored, [], c, finalized);
    }
  }

  // Where no call may be reordered, which is everywhere but under version 2,
  // the comparison accepts exactly the files that agree at every node.
  lemma {:induction false} VerdictByNode(p: Policy, authored: Node, finalized: Node)
    requires forall path: Path :: Within(authored, path) ==> !Reordered(p, authored, path)
    ensures Compares(p, authored, finalized) <==>
            authored.tag == "project" && AgreesEverywhere(p, authored, finalized)
  {
    VerdictDecided(p, authored, finalized);
    ItselfRearranged(p, authored, [], finalized);
    forall c | Rearranged(p, authored, [], c, finalized) ensures c == finalized {
      KeptIsSame(p, authored, [], c, finalized);
    }
  }
}
