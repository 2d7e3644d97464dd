// What the comparison accepts and refuses, stated on the files themselves.
module FinalizationPolicy {
  import opened Options
  import opened ProjectFinalization
  import opened FinalizationPaths

  // ---- the context of the walk, by position ----

  function CtxAt(ctx: Ctx, n: Node, path: Path): Ctx
    requires Within(n, path)
    decreases |path|
  {
    if path == [] then ctx else CtxAt(Below(ctx, n), n.children[path[0]], path[1..])
  }

  lemma {:induction false} CtxSnoc(ctx: Ctx, n: Node, path: Path, i: nat)
    requires Within(n, path + [i])
    ensures Within(n, path) && CtxAt(ctx, n, path + [i]) == Below(CtxAt(ctx, n, path), NodeAt(n, path))
    decreases |path|
  {
    var more := path + [i];
    WithinSnoc(n, path, i);
    if path == [] {
      assert more[1..] == [];
    } else {
      assert more[1..] == path[1..] + [i] && more[0] == path[0];
      CtxSnoc(Below(ctx, n), n.children[path[0]], path[1..], i);
    }
  }

  lemma {:induction false} CtxFacts(root: Node, path: Path)
    requires Within(root, path)
    ensures var ctx := CtxAt(RootCtx(root), root, path);
            ctx.tags == TagsAbove(root, path) && ctx.project == Get(root, "name") && ctx.mainAuto == MainAuto(root)
    ensures path != [] ==> Within(root, path[..|path| - 1])
    ensures path != [] ==> var ctx, parent := CtxAt(RootCtx(root), root, path), NodeAt(root, path[..|path| - 1]);
              ctx.upName == Get(parent, "name") && ctx.upClass == Get(parent, "classid")
              && TagsAbove(root, path)[|path| - 1] == parent.tag
    decreases |path|
  {
    if path != [] {
      var front, last := path[..|path| - 1], path[|path| - 1];
      assert path == front + [last];
      WithinSnoc(root, front, last);
      CtxSnoc(RootCtx(root), root, front, last);
      CtxFacts(root, front);
    }
  }

  // ---- the parameters a path lookup finds, and where ----

  predicate Fits(hops: seq<Hop>, kids: seq<Node>, path: Path)
    decreases |hops|
  {
    hops != [] && |path| == |hops| && path[0] < |kids| && Matches(hops[0], kids[path[0]])
    && (|hops| == 1 || Fits(hops[1..], kids[path[0]].children, path[1..]))
  }

  function Target(hops: seq<Hop>, kids: seq<Node>, path: Path): Node
    requires Fits(hops, kids, path)
    decreases |hops|
  {
    if |hops| == 1 then kids[path[0]] else Target(hops[1..], kids[path[0]].children, path[1..])
  }

  function Prefixed(i: nat, paths: seq<Path>): (r: seq<Path>)
    ensures |r| == |paths| && forall j :: 0 <= j < |r| ==> r[j] == [i] + paths[j]
  {
    seq(|paths|, j requires 0 <= j < |paths| => [i] + paths[j])
  }

  function Spots(hops: seq<Hop>, kids: seq<Node>, i: nat): seq<Path>
    requires hops != [] && i <= |kids|
    decreases |hops|, |kids| - i
  {
    if i == |kids| then []
    else
      (if !Matches(hops[0], kids[i]) then []
       else if |hops| == 1 then [[i]]
       else Prefixed(i, Spots(hops[1..], kids[i].children, 0)))
      + Spots(hops, kids, i + 1)
  }

  // The spots of child i itself.
  function Here(hops: seq<Hop>, kids: seq<Node>, i: nat): seq<Path>
    requires hops != [] && i < |kids|
  {
    if !Matches(hops[0], kids[i]) then []
    else if |hops| == 1 then [[i]]
    else Prefixed(i, Spots(hops[1..], kids[i].children, 0))
  }

  // Each spot fits and holds the value found.
  ghost predicate Found(hops: seq<Hop>, kids: seq<Node>, i: nat, spots: seq<Path>, found: seq<Option<string>>) {
    |spots| == |found|
    && forall j :: 0 <= j < |spots| ==>
         Fits(hops, kids, spots[j]) && spots[j][0] >= i && found[j] == Get(Target(hops, kids, spots[j]), "value")
  }

  function FoundHere(hops: seq<Hop>, n: Node): seq<Option<string>>
    requires hops != []
  {
    if !Matches(hops[0], n) then []
    else if |hops| == 1 then [Get(n, "value")]
    else Find(hops[1..], n.children)
  }

  lemma {:induction false} FoundJoins(hops: seq<Hop>, kids: seq<Node>, i: nat, a: seq<Path>, b: seq<Path>,
                                      x: seq<Option<string>>, y: seq<Option<string>>)
    requires Found(hops, kids, i, a, x) && Found(hops, kids, i + 1, b, y)
    ensures Found(hops, kids, i, a + b, x + y)
  {
    forall j | 0 <= j < |a + b|
      ensures Fits(hops, kids, (a + b)[j]) && (a + b)[j][0] >= i
      ensures (x + y)[j] == Get(Target(hops, kids, (a + b)[j]), "value")
    {
      if j < |a| {
        assert (a + b)[j] == a[j] && (x + y)[j] == x[j];
      } else {
        assert (a + b)[j] == b[j - |a|] && (x + y)[j] == y[j - |a|];
      }
    }
  }

  lemma {:induction false} FoundBelow(hops: seq<Hop>, kids: seq<Node>, i: nat, inner: seq<Path>,
                                      found: seq<Option<string>>)
    requires |hops| > 1 && i < |kids| && Matches(hops[0], kids[i])
    requires Found(hops[1..], kids[i].children, 0, inner, found)
    ensures Found(hops, kids, i, Prefixed(i, inner), found)
  {
    var all := Prefixed(i, inner);
    forall j | 0 <= j < |all|
      ensures Fits(hops, kids, all[j]) && all[j][0] >= i && found[j] == Get(Target(hops, kids, all[j]), "value")
    {
      assert all[j][1..] == inner[j];
    }
  }

  lemma {:induction false} SpotsFind(hops: seq<Hop>, kids: seq<Node>, i: nat)
    requires hops != [] && i <= |kids|
    ensures Found(hops, kids, i, Spots(hops, kids, i), Find(hops, kids[i..]))
    decreases |hops|, |kids| - i
  {
    if i < |kids| {
      var rest := Spots(hops, kids, i + 1);
      SpotsFind(hops, kids, i + 1);
      assert kids[i..][0] == kids[i] && kids[i..][1..] == kids[i + 1..];
      if Matches(hops[0], kids[i]) && |hops| > 1 {
        SpotsFind(hops[1..], kids[i].children, 0);
        assert kids[i].children[0..] == kids[i].children;
        FoundBelow(hops, kids, i, Spots(hops[1..], kids[i].children, 0), FoundHere(hops, kids[i]));
      }
      assert Found(hops, kids, i, Here(hops, kids, i), FoundHere(hops, kids[i]));
      FoundJoins(hops, kids, i, Here(hops, kids, i), rest, FoundHere(hops, kids[i]), Find(hops, kids[i + 1..]));
    }
  }

  lemma {:induction false} SpotsAll(hops: seq<Hop>, kids: seq<Node>, i: nat, path: Path)
    requires hops != [] && i <= |kids| && Fits(hops, kids, path) && path[0] >= i
    ensures path in Spots(hops, kids, i)
    decreases |hops|, |kids| - i
  {
    if path[0] > i {
      SpotsAll(hops, kids, i + 1, path);
    } else if |hops| == 1 {
      assert path == [i];
    } else {
      SpotsAll(hops[1..], kids[i].children, 0, path[1..]);
      var inner := Spots(hops[1..], kids[i].children, 0);
      var j :| 0 <= j < |inner| && inner[j] == path[1..];
      assert path == [i] + inner[j] == Prefixed(i, inner)[j];
    }
  }

  ghost predicate Sorted(paths: seq<Path>) { forall j, k :: 0 <= j < k < |paths| ==> Before(paths[j], paths[k]) }

  lemma {:induction false} SpotsSorted(hops: seq<Hop>, kids: seq<Node>, i: nat)
    requires hops != [] && i <= |kids|
    ensures Sorted(Spots(hops, kids, i))
    decreases |hops|, |kids| - i
  {
    if i < |kids| {
      SpotsSorted(hops, kids, i + 1);
      SpotsFind(hops, kids, i + 1);
      var here, rest := Here(hops, kids, i), Spots(hops, kids, i + 1);
      assert Sorted(here) && forall j :: 0 <= j < |here| ==> here[j] != [] && here[j][0] == i by {
        if Matches(hops[0], kids[i]) && |hops| > 1 {
          SpotsSorted(hops[1..], kids[i].children, 0);
          var inner := Spots(hops[1..], kids[i].children, 0);
          forall j, k | 0 <= j < k < |inner| ensures Before(here[j], here[k]) {
            assert here[j][1..] == inner[j] && here[k][1..] == inner[k];
          }
        }
      }
      assert Spots(hops, kids, i) == here + rest;
      forall j, k | 0 <= j < k < |here + rest| ensures Before((here + rest)[j], (here + rest)[k]) {}
    }
  }

  lemma {:induction false} BeforeStrict(a: Path)
    ensures !Before(a, a)
    decreases |a|
  {
    if a != [] { BeforeStrict(a[1..]); }
  }

  lemma {:induction false} SortedDistinct(paths: seq<Path>)
    requires Sorted(paths)
    ensures |paths| > 1 ==> paths[0] != paths[1]
  {
    if |paths| > 1 {
      assert Before(paths[0], paths[1]);
      BeforeStrict(paths[0]);
    }
  }

  // ---- sequencing, as the walk reads it ----

  lemma {:induction false} ParameterFits(n: Node, i: nat, j: nat)
    ensures SequenceParameter(n, i, j) <==> Fits(AUTO_HOPS, n.children, [i, j])
    ensures SequenceParameter(n, i, j) ==> Target(AUTO_HOPS, n.children, [i, j]) == n.children[i].children[j]
  {
    assert [i, j][1..] == [j] && AUTO_HOPS[1..] == [Hop("param", Some("auto_sequence"))];
  }

  lemma {:induction false} SequencedWhenRead(n: Node)
    requires AutoSequence(n.children)
    ensures Sequenced(n)
  {
    var spots := Spots(AUTO_HOPS, n.children, 0);
    SpotsFind(AUTO_HOPS, n.children, 0);
    assert n.children[0..] == n.children;
    var i, j := spots[0][0], spots[0][1];
    assert spots[0] == [i, j];
    ParameterFits(n, i, j);
    forall k: nat, l: nat | SequenceParameter(n, k, l) ensures k == i && l == j {
      ParameterFits(n, k, l);
      SpotsAll(AUTO_HOPS, n.children, 0, [k, l]);
      assert [k, l] == spots[0];
    }
  }

  lemma {:induction false} ReadWhenSequenced(n: Node, i: nat, j: nat)
    requires SequenceParameter(n, i, j) && IsOne(n.children[i].children[j])
    requires forall k: nat, l: nat :: SequenceParameter(n, k, l) ==> k == i && l == j
    ensures AutoSequence(n.children)
  {
    var spots := Spots(AUTO_HOPS, n.children, 0);
    SpotsFind(AUTO_HOPS, n.children, 0);
    SpotsSorted(AUTO_HOPS, n.children, 0);
    assert n.children[0..] == n.children;
    ParameterFits(n, i, j);
    SpotsAll(AUTO_HOPS, n.children, 0, [i, j]);
    forall m | 0 <= m < |spots| ensures spots[m] == [i, j] {
      assert spots[m] == [spots[m][0], spots[m][1]];
      ParameterFits(n, spots[m][0], spots[m][1]);
    }
    SortedDistinct(spots);
  }

  lemma {:induction false} SequencedRead(n: Node)
    ensures AutoSequence(n.children) <==> Sequenced(n)
  {
    if AutoSequence(n.children) { SequencedWhenRead(n); }
    if Sequenced(n) {
      var i: nat, j: nat :| SequenceParameter(n, i, j) && IsOne(n.children[i].children[j])
        && forall k: nat, l: nat :: SequenceParameter(n, k, l) ==> k == i && l == j;
      ReadWhenSequenced(n, i, j);
    }
  }

  lemma {:induction false} TagAt(root: Node, path: Path, k: nat)
    requires Within(root, path) && k < |path|
    ensures Within(root, path[..k]) && TagsAbove(root, path)[k] == NodeAt(root, path[..k]).tag
    decreases |path|
  {
    if k > 0 {
      TagAt(root.children[path[0]], path[1..], k - 1);
      assert path[..k][1..] == path[1..][..k - 1];
    }
  }

  predicate MatchesAt(hop: Hop, root: Node, path: Path, k: nat) {
    k < |path| && Within(root, path[..k + 1]) && Matches(hop, NodeAt(root, path[..k + 1]))
  }

  // A path that fits leads through nodes that match, hop by hop, ...
  lemma {:induction false} FitsLeads(hops: seq<Hop>, root: Node, path: Path)
    requires Fits(hops, root.children, path)
    ensures Within(root, path) && Target(hops, root.children, path) == NodeAt(root, path)
    ensures forall k :: 0 <= k < |hops| ==> MatchesAt(hops[k], root, path, k)
    decreases |hops|
  {
    var child := root.children[path[0]];
    if |hops| > 1 { FitsLeads(hops[1..], child, path[1..]); }
    forall k | 0 <= k < |hops| ensures MatchesAt(hops[k], root, path, k) {
      assert path[..k + 1][1..] == path[1..][..k] && path[..k + 1][0] == path[0];
      if k > 0 { assert MatchesAt(hops[1..][k - 1], child, path[1..], k - 1); }
    }
  }

  // ... and one that does fits.
  lemma {:induction false} LeadsFits(hops: seq<Hop>, root: Node, path: Path)
    requires hops != [] && |path| == |hops| && Within(root, path)
    requires forall k :: 0 <= k < |hops| ==> MatchesAt(hops[k], root, path, k)
    ensures Fits(hops, root.children, path)
    decreases |hops|
  {
    var child := root.children[path[0]];
    assert MatchesAt(hops[0], root, path, 0) && path[..1] == [path[0]] && NodeAt(root, path[..1]) == child;
    if |hops| > 1 {
      forall k | 0 <= k < |hops| - 1 ensures MatchesAt(hops[1..][k], child, path[1..], k) {
        assert MatchesAt(hops[k + 1], root, path, k + 1) && path[..k + 2][1..] == path[1..][..k + 1];
      }
      LeadsFits(hops[1..], child, path[1..]);
    }
  }

  const MAIN_PATH: seq<Hop> :=
    [Hop("definitions", None), Hop("Definition", Some("Main")), Hop("schematic", None),
     Hop("paramlist", None), Hop("param", Some("auto_sequence"))]

  lemma {:induction false} MainTags(root: Node, path: Path)
    requires |path| == 5 && Within(root, path)
    ensures Within(root, path[..1]) && Within(root, path[..2]) && Within(root, path[..3]) && Within(root, path[..4])
    ensures path[..5] == path
    ensures TagsAbove(root, path)[1..]
         == [NodeAt(root, path[..1]).tag, NodeAt(root, path[..2]).tag, NodeAt(root, path[..3]).tag,
             NodeAt(root, path[..4]).tag]
  {
    TagAt(root, path, 1);
    TagAt(root, path, 2);
    TagAt(root, path, 3);
    TagAt(root, path, 4);
  }

  lemma {:induction false} MainFits(root: Node, path: Path)
    ensures MainParameter(root, path) <==> Fits(MAIN_HOPS, root.children, path)
    ensures MainParameter(root, path) ==> Target(MAIN_HOPS, root.children, path) == NodeAt(root, path)
  {
    assert MAIN_HOPS == MAIN_PATH;
    if Fits(MAIN_HOPS, root.children, path) {
      FitsLeads(MAIN_PATH, root, path);
      MainTags(root, path);
      assert MatchesAt(MAIN_PATH[0], root, path, 0) && MatchesAt(MAIN_PATH[1], root, path, 1);
      assert MatchesAt(MAIN_PATH[2], root, path, 2) && MatchesAt(MAIN_PATH[3], root, path, 3);
      assert MatchesAt(MAIN_PATH[4], root, path, 4);
    }
    if MainParameter(root, path) {
      MainTags(root, path);
      var tags := TagsAbove(root, path)[1..];
      assert tags[0] == "definitions" && tags[1] == "Definition" && tags[2] == "schematic" && tags[3] == "paramlist";
      forall k | 0 <= k < 5 ensures MatchesAt(MAIN_PATH[k], root, path, k) { WithinPrefix(root, path, k + 1); }
      LeadsFits(MAIN_PATH, root, path);
      FitsLeads(MAIN_PATH, root, path);
    }
  }

  lemma {:induction false} MainRead(root: Node)
    ensures MainAuto(root) <==> MainSequenced(root)
  {
    var kids := root.children;
    var spots := Spots(MAIN_HOPS, kids, 0);
    SpotsFind(MAIN_HOPS, kids, 0);
    SpotsSorted(MAIN_HOPS, kids, 0);
    assert kids[0..] == kids;
    if MainAuto(root) {
      MainFits(root, spots[0]);
      forall other | MainParameter(root, other) ensures other == spots[0] || Before(spots[0], other) {
        MainFits(root, other);
        SpotsAll(MAIN_HOPS, kids, 0, other);
      }
    }
    if MainSequenced(root) {
      var path :| MainParameter(root, path) && IsOne(NodeAt(root, path))
        && forall other :: MainParameter(root, other) ==> other == path || Before(path, other);
      MainFits(root, path);
      SpotsAll(MAIN_HOPS, kids, 0, path);
      MainFits(root, spots[0]);
      if spots[0] != path { BeforeBoth(spots[0], path); }
    }
  }

  lemma {:induction false} BeforeBoth(a: Path, b: Path)
    requires Before(a, b)
    ensures !Before(b, a)
    decreases |a|
  {
    if a != [] && a[0] == b[0] { BeforeBoth(a[1..], b[1..]); }
  }

  // ---- the mask, as the policies list it ----

  lemma {:induction false} OpensAt(root: Node, path: Path)
    requires Within(root, path)
    ensures OpensSchematic(CtxAt(RootCtx(root), root, path), NodeAt(root, path)) <==> Schematic(root, path)
  {
    CtxFacts(root, path);
  }

  // What the walk knows of the schematic around a node, itself included.
  lemma {:induction false} FlagsAt(root: Node, path: Path)
    requires Within(root, path)
    ensures var ctx := At(CtxAt(RootCtx(root), root, path), NodeAt(root, path));
            (ctx.inSchematic <==> InSchematic(root, path)) && (ctx.automatic <==> InSequenced(root, path))
    decreases |path|
  {
    OpensAt(root, path);
    assert path[..|path|] == path;
    if Schematic(root, path) {
      SequencedRead(NodeAt(root, path));
      assert Inside(root, path, |path|);
      OneInside(root, path, |path|);
    } else if path != [] {
      var front, last := path[..|path| - 1], path[|path| - 1];
      assert path == front + [last];
      WithinSnoc(root, front, last);
      CtxSnoc(RootCtx(root), root, front, last);
      FlagsAt(root, front);
      InsideFront(root, path);
    }
  }

  lemma {:induction false} OneInside(root: Node, path: Path, k: nat)
    requires Within(root, path) && Inside(root, path, k)
    ensures forall j: nat :: Inside(root, path, j) ==> j == k
  {}

  // Below the innermost schematic nothing changes.
  lemma {:induction false} InsideFront(root: Node, path: Path)
    requires Within(root, path) && path != [] && !Schematic(root, path)
    ensures InSchematic(root, path) <==> InSchematic(root, path[..|path| - 1])
    ensures InSequenced(root, path) <==> InSequenced(root, path[..|path| - 1])
  {
    var front := path[..|path| - 1];
    assert path[..|path|] == path;
    forall k: nat | k < |path| ensures front[..k] == path[..k] {}
    forall k: nat ensures Inside(root, path, k) <==> Inside(root, front, k) {
      if k < |path| { assert front[..k] == path[..k]; }
    }
  }

  // The four attributes of generated modules.
  predicate InGenerated(ctx: Ctx, n: Node, name: string) {
    (ctx.inSchematic && n.tag == "User" && Get(n, "classid") == Some("UserCmp") && name in ["w", "h"])
    || (ctx.inSchematic && IsInstanceParameters(ctx, n) && name == "crc")
    || (IsStationCall(ctx, n) && name == "link")
    || (n.tag == "call" && ctx.tags == ["project", "hierarchy", "call", "call"] && name in ["instance", "z"])
  }

  lemma {:induction false} ExcludedHolds(p: Policy, ctx0: Ctx, n: Node, name: string)
    ensures var ctx := At(ctx0, n);
            name in Excluded(p, ctx0, n) <==>
              (IsRevisor(ctx, n) && name == "value")
              || (n.tag == "Definition" && ctx.tags == ["project", "definitions"] && name in ["date", "crc"])
              || (ctx.inSchematic && (n.tag == "User" || n.tag == "Wire") && ctx.automatic && name == "z")
              || (ctx.inSchematic && n.tag == "Wire" && name in ["w", "h"])
              || (Generated(p) && InGenerated(ctx, n, name))
  {}

  lemma {:induction false} GeneratedIsListed(root: Node, path: Path, name: string)
    requires Within(root, path)
    ensures InGenerated(At(CtxAt(RootCtx(root), root, path), NodeAt(root, path)), NodeAt(root, path), name)
       <==> ListedGenerated(root, path, name)
  {
    CtxFacts(root, path);
    FlagsAt(root, path);
  }

  // An automatic schematic is a schematic.
  lemma {:induction false} SequencedIsInside(root: Node, path: Path)
    requires Within(root, path)
    ensures InSequenced(root, path) ==> InSchematic(root, path)
  {}

  lemma {:induction false} ExcludedIsListed(p: Policy, root: Node, path: Path, name: string)
    requires Within(root, path)
    ensures name in Excluded(p, CtxAt(RootCtx(root), root, path), NodeAt(root, path)) <==> Listed(p, root, path, name)
  {
    ExcludedHolds(p, CtxAt(RootCtx(root), root, path), NodeAt(root, path), name);
    GeneratedIsListed(root, path, name);
    CtxFacts(root, path);
    FlagsAt(root, path);
    SequencedIsInside(root, path);
  }

  lemma {:induction false} ReordersIsReordered(p: Policy, root: Node, path: Path)
    requires Within(root, path)
    ensures Reorders(p, CtxAt(RootCtx(root), root, path), NodeAt(root, path)) <==> Reordered(p, root, path)
  {
    CtxFacts(root, path);
    MainRead(root);
  }
}
