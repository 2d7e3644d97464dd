// Which files the comparison accepts: node by node, attribute by attribute.
module FinalizationVerdict {
  import opened Options
  import opened PyText
  import opened ProjectFinalization
  import opened FinalizationTheorems
  import opened FinalizationPaths
  import opened FinalizationPolicy
  import E = FinalizationEvidence

  // The comparison of the two files under a policy.
  predicate Compares(p: Policy, authored: Node, finalized: Node) {
    SameFinalization(SnapshotOf(p, authored), SnapshotOf(p, finalized))
  }

  // ---- which files can be snapshotted at all ----

  lemma {:induction false} FineIsIdentified(kids: seq<Node>)
    ensures KeysFine(kids) <==> Identified(kids)
  {
    if Identified(kids) {
      forall i | 0 <= i < |kids| ensures kids[i].tag == "call" && KeyOf(kids[i]).0 != "" && KeyOf(kids[i]).1 != "" {
        assert kids[i] in kids;
      }
      forall i, j | 0 <= i < j < |kids| ensures KeyOf(kids[i]) != KeyOf(kids[j]) {
        assert kids[i] in kids && kids[j] in kids && !SameIdentity(kids[i], kids[j]);
      }
    }
    if KeysFine(kids) {
      forall i, j | 0 <= i < j < |kids| ensures !SameIdentity(kids[i], kids[j]) {
        assert KeyOf(kids[i]) != KeyOf(kids[j]);
      }
    }
  }

  ghost predicate IdentifiedAt(p: Policy, root: Node, path: Path) {
    Within(root, path) && Reordered(p, root, path) ==> Identified(NodeAt(root, path).children)
  }

  lemma {:induction false} StepWithin(root: Node, path: Path, more: Path)
    requires Within(root, path) && more != [] && Within(root, path + more)
    ensures more[0] < |NodeAt(root, path).children|
  {
    WithinPrefix(root, path + more, |path|);
    assert (path + more)[..|path|] == path;
  }

  // Accepted at a node means identified calls at every node below it, ...
  lemma {:induction false} AcceptedIdentifies(p: Policy, root: Node, path: Path, more: Path)
    requires Within(root, path) && Accepts(p, CtxAt(RootCtx(root), root, path), NodeAt(root, path))
    ensures IdentifiedAt(p, root, path + more)
    decreases |more|
  {
    if Within(root, path + more) {
      if more == [] {
        assert path + more == path;
        ReordersIsReordered(p, root, path);
        FineIsIdentified(NodeAt(root, path).children);
      } else {
        StepWithin(root, path, more);
        WithinSnoc(root, path, more[0]);
        CtxSnoc(RootCtx(root), root, path, more[0]);
        assert path + more == path + [more[0]] + more[1..];
        AcceptedIdentifies(p, root, path + [more[0]], more[1..]);
      }
    }
  }

  // ... and the other way round.
  lemma {:induction false} IdentifiedAccepts(p: Policy, root: Node, path: Path)
    requires Within(root, path) && forall at: Path :: IdentifiedAt(p, root, at)
    ensures Accepts(p, CtxAt(RootCtx(root), root, path), NodeAt(root, path))
    decreases NodeAt(root, path)
  {
    var ctx, n := CtxAt(RootCtx(root), root, path), NodeAt(root, path);
    ReordersIsReordered(p, root, path);
    FineIsIdentified(n.children);
    assert IdentifiedAt(p, root, path);
    forall k | k in n.children ensures Accepts(p, Below(ctx, n), k) {
      var i: nat :| i < |n.children| && n.children[i] == k;
      WithinSnoc(root, path, i);
      CtxSnoc(RootCtx(root), root, path, i);
      IdentifiedAccepts(p, root, path + [i]);
    }
  }

  // A snapshot is taken of every project in which the calls that may be
  // reordered all have identities of their own.
  lemma {:induction false} TakenExactly(p: Policy, root: Node)
    ensures SnapshotOf(p, root).Taken? <==>
            root.tag == "project" && forall path: Path :: IdentifiedAt(p, root, path)
  {
    if SnapshotOf(p, root).Taken? {
      forall path: Path ensures IdentifiedAt(p, root, path) {
        AcceptedIdentifies(p, root, [], path);
        assert [] + path == path;
      }
    }
    if forall path: Path :: IdentifiedAt(p, root, path) { IdentifiedAccepts(p, root, []); }
  }

  // ---- what acceptance means at every node ----

  lemma {:induction false} BlankIsWhite(text: string)
    ensures Blank(text) <==> White(text)
  {
    if Blank(text) {
      forall c | c in text
        ensures 9 <= c as int <= 13 || 28 <= c as int <= 32 || 0x2000 <= c as int <= 0x200A
             || c as int in {0x85, 0xA0, 0x1680, 0x2028, 0x2029, 0x202F, 0x205F, 0x3000}
      {
        var i :| 0 <= i < |text| && text[i] == c;
        assert IsSpace(text[i]);
      }
    }
    if White(text) {
      forall i | 0 <= i < |text| ensures IsSpace(text[i]) { assert text[i] in text; }
    }
  }

  lemma {:induction false} TextsAgree(a: Node, b: Node)
    ensures SameText(a, b) <==> TextAgrees(a, b)
    ensures SameTail(a, b) <==> TailAgrees(a, b)
  {
    if a.text.Some? { BlankIsWhite(a.text.value); }
    if b.text.Some? { BlankIsWhite(b.text.value); }
    LineBreaks(a.tail);
    LineBreaks(b.tail);
  }

  lemma {:induction false} LineBreaks(tail: Option<string>)
    ensures IgnorableTail(tail) <==> BreaksLine(tail)
  {
    if tail.Some? {
      BlankIsWhite(tail.value);
      assert '\n' as int == 10 && '\r' as int == 13;
    }
  }

  // One step down: the counterpart of child i.
  lemma {:induction false} SimilarChild(p: Policy, ctx: Ctx, a: Node, b: Node, i: nat) returns (j: nat)
    requires Similar(p, ctx, a, b) && i < |a.children|
    ensures j < |b.children| && Similar(p, Below(ctx, a), a.children[i], b.children[j])
    ensures if Reorders(p, ctx, a) then SameIdentity(a.children[i], b.children[j]) else j == i
  {
    var bs: seq<Node> :| Reordering(p, ctx, a, bs, b.children)
      && forall k | 0 <= k < |a.children| :: Similar(p, Below(ctx, a), a.children[k], bs[k]);
    if Reorders(p, ctx, a) {
      assert bs[i] in multiset(b.children);
      j :| 0 <= j < |b.children| && b.children[j] == bs[i];
      NamesKept(p, Below(ctx, a), a.children[i]);
    } else {
      j := i;
    }
  }

  ghost predicate StepsMatch(p: Policy, ctx: Ctx, a: Node, at: Path, b: Node, to: Path) {
    |at| == |to| && Within(a, at) && Within(b, to)
    && forall k :: 0 <= k < |at| ==> StepMatches(p, ctx, a, at, b, to, k)
  }

  ghost predicate StepMatches(p: Policy, ctx: Ctx, a: Node, at: Path, b: Node, to: Path, k: nat)
    requires |at| == |to| && Within(a, at) && Within(b, to) && k < |at|
  {
    WithinPrefix(a, at, k);
    WithinPrefix(a, at, k + 1);
    WithinPrefix(b, to, k + 1);
    if Reorders(p, CtxAt(ctx, a, at[..k]), NodeAt(a, at[..k]))
    then SameIdentity(NodeAt(a, at[..k + 1]), NodeAt(b, to[..k + 1]))
    else at[k] == to[k]
  }

  // All the way down.
  lemma {:induction false} SimilarDown(p: Policy, ctx: Ctx, a: Node, at: Path, b: Node) returns (to: Path)
    requires Similar(p, ctx, a, b) && Within(a, at)
    ensures StepsMatch(p, ctx, a, at, b, to)
    ensures Similar(p, CtxAt(ctx, a, at), NodeAt(a, at), NodeAt(b, to))
    decreases |at|
  {
    if at == [] {
      to := [];
    } else {
      var i := at[0];
      var j := SimilarChild(p, ctx, a, b, i);
      var rest := SimilarDown(p, Below(ctx, a), a.children[i], at[1..], b.children[j]);
      to := [j] + rest;
      StepDown(p, ctx, a, at, b, to);
    }
  }

  lemma {:induction false} StepDown(p: Policy, ctx: Ctx, a: Node, at: Path, b: Node, to: Path)
    requires Within(a, at) && at != [] && to != [] && to[0] < |b.children|
    requires if Reorders(p, ctx, a) then SameIdentity(a.children[at[0]], b.children[to[0]]) else to[0] == at[0]
    requires StepsMatch(p, Below(ctx, a), a.children[at[0]], at[1..], b.children[to[0]], to[1..])
    ensures StepsMatch(p, ctx, a, at, b, to)
  {
    var x, y := a.children[at[0]], b.children[to[0]];
    forall k | 0 <= k < |at| ensures StepMatches(p, ctx, a, at, b, to, k) {
      WithinPrefix(a, at, k);
      WithinPrefix(a, at, k + 1);
      WithinPrefix(b, to, k + 1);
      assert at[..k + 1][1..] == at[1..][..k] && to[..k + 1][1..] == to[1..][..k];
      if k > 0 {
        assert StepMatches(p, Below(ctx, a), x, at[1..], y, to[1..], k - 1);
        assert at[..k][1..] == at[1..][..k - 1];
      }
    }
  }

  lemma {:induction false} StepsAreMatched(p: Policy, a: Node, at: Path, b: Node, to: Path)
    requires StepsMatch(p, RootCtx(a), a, at, b, to)
    ensures Matched(p, a, at, b, to)
  {
    forall k | 0 <= k < |at| ensures MatchedStep(p, a, at, b, to, k) {
      assert StepMatches(p, RootCtx(a), a, at, b, to, k);
      WithinPrefix(a, at, k);
      ReordersIsReordered(p, a, at[..k]);
    }
  }

  // When the comparison accepts, every node of the authored file has its
  // counterpart in the finalized one: same tag, same number of children, same
  // text, and every attribute the same but those the policy lists there.
  lemma {:induction false} Counterpart(p: Policy, authored: Node, finalized: Node, at: Path) returns (to: Path)
    requires Compares(p, authored, finalized) && Within(authored, at)
    ensures Matched(p, authored, at, finalized, to)
    ensures NodeAgrees(p, authored, at, NodeAt(finalized, to))
  {
    ComparisonDecidesSimilarity(p, authored, finalized);
    to := SimilarDown(p, RootCtx(authored), authored, at, finalized);
    StepsAreMatched(p, authored, at, finalized, to);
    var a, b := NodeAt(authored, at), NodeAt(finalized, to);
    TextsAgree(a, b);
    forall name ensures Get(a, name) == Get(b, name) || Listed(p, authored, at, name) {
      ExcludedIsListed(p, authored, at, name);
    }
  }

  // ---- changes of one node ----

  lemma {:induction false} SimilarToItself(p: Policy, ctx: Ctx, n: Node)
    ensures Similar(p, ctx, n, n)
  {
    EqualImpliesSimilar(p, ctx, n, n);
  }

  // A change that is similar where it is made is similar as a whole.
  lemma {:induction false} ReplacedIsSimilar(p: Policy, ctx: Ctx, root: Node, path: Path, n: Node)
    requires Within(root, path) && Similar(p, CtxAt(ctx, root, path), NodeAt(root, path), n)
    ensures Similar(p, ctx, root, Replaced(root, path, n))
    decreases |path|
  {
    if path != [] {
      var now := Replaced(root, path, n);
      ReplacedIsSimilar(p, Below(ctx, root), root.children[path[0]], path[1..], n);
      forall i | 0 <= i < |root.children|
        ensures Similar(p, Below(ctx, root), root.children[i], now.children[i])
      {
        if i != path[0] { SimilarToItself(p, Below(ctx, root), root.children[i]); }
      }
      assert Reordering(p, ctx, root, now.children, now.children);
    }
  }

  lemma {:induction false} EditedIsSimilar(p: Policy, ctx: Ctx, n: Node, name: string, value: Option<string>)
    requires name in Excluded(p, ctx, n) || Get(n, name) == value
    ensures Similar(p, ctx, n, WithAttribute(n, name, value))
  {
    var now := WithAttribute(n, name, value);
    AttributeSet(n, name, value);
    forall i | 0 <= i < |n.children| ensures Similar(p, Below(ctx, n), n.children[i], now.children[i]) {
      SimilarToItself(p, Below(ctx, n), n.children[i]);
    }
    assert Reordering(p, ctx, n, now.children, now.children);
  }

  lemma {:induction false} OwnIdentity(kids: seq<Node>, i: nat, j: nat)
    requires Identified(kids) && i < |kids| && j < |kids| && i != j
    ensures !SameIdentity(kids[i], kids[j])
  {
    if i > j { assert !SameIdentity(kids[j], kids[i]); }
  }

  // Below calls with identities of their own the counterpart of a changed node
  // is that node: one step, ...
  lemma {:induction false} SameStep(p: Policy, root: Node, path: Path, n: Node, to: Path, m: nat)
    requires Within(root, path) && m < |path| && IdentifiedAt(p, root, path[..m])
    requires Matched(p, root, path, Replaced(root, path, n), to) && path[..m] == to[..m]
    ensures path[m] == to[m]
  {
    var now := Replaced(root, path, n);
    assert MatchedStep(p, root, path, now, to, m);
    WithinPrefix(root, path, m);
    WithinPrefix(now, to, m);
    ReplacedAt(root, path, n, m, to[m]);
    assert path[..m + 1] == path[..m] + [path[m]] && to[..m + 1] == to[..m] + [to[m]];
    WithinPrefix(root, path, m + 1);
    WithinPrefix(now, to, m + 1);
    WithinSnoc(root, path[..m], path[m]);
    WithinSnoc(now, to[..m], to[m]);
    if Reordered(p, root, path[..m]) && to[m] != path[m] {
      OwnIdentity(NodeAt(root, path[..m]).children, path[m], to[m]);
    }
  }

  // ... and all of them.
  lemma {:induction false} SamePlace(p: Policy, root: Node, path: Path, n: Node, to: Path, k: nat)
    requires Within(root, path) && k <= |path| && forall at: Path :: IdentifiedAt(p, root, at)
    requires Matched(p, root, path, Replaced(root, path, n), to)
    ensures path[..k] == to[..k]
    decreases k
  {
    if k > 0 {
      SamePlace(p, root, path, n, to, k - 1);
      assert IdentifiedAt(p, root, path[..k - 1]);
      SameStep(p, root, path, n, to, k - 1);
      assert path[..k] == path[..k - 1] + [path[k - 1]] && to[..k] == to[..k - 1] + [to[k - 1]];
    }
  }

  // Exactly the listed attributes may change: a file in which one attribute of
  // one node is set to another value, or removed, is accepted if and only if
  // the policy lists that attribute at that place.
  lemma {:induction false} EditDecided(p: Policy, root: Node, path: Path, name: string, value: Option<string>)
    requires SnapshotOf(p, root).Taken? && Within(root, path)
    ensures Compares(p, root, Edited(root, path, name, value)) <==>
            Listed(p, root, path, name) || Get(NodeAt(root, path), name) == value
  {
    var n := WithAttribute(NodeAt(root, path), name, value);
    var now := Replaced(root, path, n);
    AttributeSet(NodeAt(root, path), name, value);
    if Compares(p, root, now) {
      var to := Counterpart(p, root, now, path);
      TakenExactly(p, root);
      SamePlace(p, root, path, n, to, |path|);
      assert path[..|path|] == path && to[..|path|] == to;
      ReplacedNode(root, path, n);
    }
    if Listed(p, root, path, name) || Get(NodeAt(root, path), name) == value {
      ExcludedIsListed(p, root, path, name);
      EditedIsSimilar(p, CtxAt(RootCtx(root), root, path), NodeAt(root, path), name, value);
      ReplacedIsSimilar(p, RootCtx(root), root, path, n);
      ComparisonDecidesSimilarity(p, root, now);
    }
  }

  // Under every policy, moving a wire or a vertex, renumbering it or changing
  // anything of it but its drawing size and its sequence number is refused.
  lemma {:induction false} MovedWireIsRefused(p: Policy, root: Node, path: Path, name: string, value: Option<string>)
    requires Within(root, path)
    requires NodeAt(root, path).tag == "vertex" || (NodeAt(root, path).tag == "Wire" && name !in ["w", "h", "z"])
    requires Get(NodeAt(root, path), name) != value
    ensures !Compares(p, root, Edited(root, path, name, value))
  {
    if SnapshotOf(p, root).Taken? { EditDecided(p, root, path, name, value); }
  }

  // Calls that may be reordered may come in any order.
  lemma {:induction false} AnyOrderOfCalls(p: Policy, root: Node, path: Path, kids: seq<Node>)
    requires SnapshotOf(p, root).Taken? && Within(root, path) && Reordered(p, root, path)
    requires multiset(kids) == multiset(NodeAt(root, path).children)
    ensures Compares(p, root, Replaced(root, path, NodeAt(root, path).(children := kids)))
  {
    var ctx, n := CtxAt(RootCtx(root), root, path), NodeAt(root, path);
    var now := n.(children := kids);
    ReordersIsReordered(p, root, path);
    assert |multiset(kids)| == |kids| && |multiset(n.children)| == |n.children|;
    forall i | 0 <= i < |n.children| ensures Similar(p, Below(ctx, n), n.children[i], n.children[i]) {
      SimilarToItself(p, Below(ctx, n), n.children[i]);
    }
    assert Reordering(p, ctx, n, n.children, now.children);
    ReplacedIsSimilar(p, RootCtx(root), root, path, now);
    ComparisonDecidesSimilarity(p, root, Replaced(root, path, now));
  }

  // ---- agreement at every node ----

  // The finalized file has the same nodes at the same places, and each agrees.
  ghost predicate AgreesEverywhere(p: Policy, authored: Node, finalized: Node) {
    forall path: Path :: Within(authored, path) ==>
      Within(finalized, path) && NodeAgrees(p, authored, path, NodeAt(finalized, path))
  }

  // So do all nodes below a node.
  ghost predicate AgreesBelow(p: Policy, root: Node, path: Path, b: Node)
    requires Within(root, path)
  {
    forall more: Path :: Within(NodeAt(root, path), more) ==>
      Within(b, more) && Within(root, path + more) && NodeAgrees(p, root, path + more, NodeAt(b, more))
  }

  lemma {:induction false} AgreesHere(p: Policy, root: Node, path: Path, b: Node)
    requires Within(root, path) && AgreesBelow(p, root, path, b)
    ensures NodeAgrees(p, root, path, b)
  {
    assert path + [] == path && Within(NodeAt(root, path), []);
    assert NodeAgrees(p, root, path + [], NodeAt(b, []));
  }

  lemma {:induction false} AgreesOneDown(p: Policy, root: Node, path: Path, b: Node, i: nat)
    requires Within(root, path) && AgreesBelow(p, root, path, b) && i < |NodeAt(root, path).children| <= |b.children|
    ensures Within(root, path + [i]) && NodeAt(root, path + [i]) == NodeAt(root, path).children[i]
    ensures AgreesBelow(p, root, path + [i], b.children[i])
  {
    var n := NodeAt(root, path);
    WithinSnoc(root, path, i);
    forall more: Path | Within(n.children[i], more)
      ensures Within(b.children[i], more) && Within(root, path + [i] + more)
           && NodeAgrees(p, root, path + [i] + more, NodeAt(b.children[i], more))
    {
      assert ([i] + more)[1..] == more && path + ([i] + more) == path + [i] + more;
      assert Within(n, [i] + more);
      assert NodeAgrees(p, root, path + ([i] + more), NodeAt(b, [i] + more));
    }
  }

  // ---- what is kept of the listed attributes ----

  // No call on the way to the node may be reordered.
  ghost predicate KeptInPlace(p: Policy, ctx: Ctx, n: Node, path: Path)
    requires Within(n, path)
  {
    forall k: nat :: k < |path| ==>
      (WithinPrefix(n, path, k); !Reorders(p, CtxAt(ctx, n, path[..k]), NodeAt(n, path[..k])))
  }

  lemma {:induction false} MetaDown(p: Policy, ctx: Ctx, n: Node, at: seq<nat>, path: Path, name: string)
    requires Within(n, path) && KeptInPlace(p, ctx, n, path)
    ensures E.Lookup(Meta(p, ctx, n, at), Place(at + path, name))
         == E.Lookup(OwnMeta(p, CtxAt(ctx, n, path), NodeAt(n, path), at + path), Place(at + path, name))
    decreases |path|
  {
    if path == [] {
      assert at + path == at;
      E.MetaOwn(p, ctx, n, at, name);
    } else {
      var i, child := path[0], n.children[path[0]];
      assert path[..0] == [] && at + path == at + [i] + path[1..];
      assert !Reorders(p, CtxAt(ctx, n, path[..0]), NodeAt(n, path[..0]));
      forall k: nat | k < |path| - 1
        ensures (WithinPrefix(child, path[1..], k);
                 !Reorders(p, CtxAt(Below(ctx, n), child, path[1..][..k]), NodeAt(child, path[1..][..k])))
      {
        WithinPrefix(n, path, k + 1);
        WithinPrefix(child, path[1..], k);
        assert path[..k + 1][1..] == path[1..][..k] && path[..k + 1][0] == i;
      }
      E.MetaParts(p, ctx, n, at, i);
      MetaDown(p, Below(ctx, n), child, at + [i], path[1..], name);
    }
  }

  // Of one node, the metadata holds what is masked.
  lemma {:induction false} OwnHolds(p: Policy, ctx: Ctx, n: Node, at: seq<nat>, name: string)
    requires name != ORDER
    ensures E.Lookup(OwnMeta(p, ctx, n, at), Place(at, name))
         == if name in Excluded(p, ctx, n) && name in n.attrs then Some(Value(n.attrs[name])) else None
  {
    assert Place(at, name) in MaskedMeta(p, ctx, n, at) <==> name in n.attrs && name in Excluded(p, ctx, n);
  }

  lemma {:induction false} InPlace(p: Policy, root: Node, path: Path)
    requires Within(root, path) && forall more: Path :: Within(root, more) ==> !Reordered(p, root, more)
    ensures KeptInPlace(p, RootCtx(root), root, path)
  {
    forall k: nat | k < |path|
      ensures (WithinPrefix(root, path, k);
               !Reorders(p, CtxAt(RootCtx(root), root, path[..k]), NodeAt(root, path[..k])))
    {
      WithinPrefix(root, path, k);
      ReordersIsReordered(p, root, path[..k]);
    }
  }

  // The metadata of a snapshot holds, at every node, the values of exactly the
  // listed attributes.
  lemma {:induction false} MetadataByNode(p: Policy, root: Node, path: Path, name: string)
    requires Within(root, path) && name != ORDER
    requires forall more: Path :: Within(root, more) ==> !Reordered(p, root, more)
    ensures E.Lookup(Meta(p, RootCtx(root), root, []), Place(path, name))
         == if Listed(p, root, path, name) && name in NodeAt(root, path).attrs
            then Some(Value(NodeAt(root, path).attrs[name])) else None
  {
    InPlace(p, root, path);
    assert [] + path == path;
    MetaDown(p, RootCtx(root), root, [], path, name);
    OwnHolds(p, CtxAt(RootCtx(root), root, path), NodeAt(root, path), path, name);
    ExcludedIsListed(p, root, path, name);
  }
}
