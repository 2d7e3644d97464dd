// The whole project: local definitions, the Main canvas and the hierarchy
// calls, written into a seed project and audited.
module TopologyProject {
  import opened Options
  import opened TopologyTree
  import opened TopologyWriter

  datatype Project = Project(name: string, definitions: seq<Element>, hierarchy: Element)

  // ---- hierarchy ----

  function CallName(e: Element): string { LastPart(GetOr(e, Name, "")) }

  predicate IsMainCall(e: Element) { e.tag == "call" && CallName(e) == "Main" }

  // The first Main call in document order gets these children instead of its own.
  function PutMain(e: Element, kids: seq<Element>): Option<Element>
    decreases e, 1
  {
    if IsMainCall(e) then Some(Element(e.tag, e.attrs, kids)) else
      var below := PutMainIn(e.children, kids);
      if below.None? then None else Some(Element(e.tag, e.attrs, below.value))
  }

  function PutMainIn(elements: seq<Element>, kids: seq<Element>): Option<seq<Element>>
    decreases elements, 0
  {
    if elements == [] then None else
      var first := PutMain(elements[0], kids);
      if first.Some? then Some([first.value] + elements[1..]) else
        var rest := PutMainIn(elements[1..], kids);
        if rest.None? then None else Some([elements[0]] + rest.value)
  }

  function CallElement(c: Case, x: Component): Element {
    Element("call", map[Link := x.id, Name := c.project + ":" + x.definition], [])
  }

  // The calls _replace_hierarchy puts under Main.
  function MainCalls(c: Case, xs: seq<Component>): seq<Element> {
    if xs == [] then [] else
      var n := |xs| - 1;
      MainCalls(c, xs[..n]) + if IsLocal(c, xs[n].definition) then [CallElement(c, xs[n])] else []
  }

  lemma {:induction false} MainCallsHold(c: Case, xs: seq<Component>)
    ensures forall e ::
      e in MainCalls(c, xs) <==> exists x :: x in xs && IsLocal(c, x.definition) && e == CallElement(c, x)
  {
    if xs != [] {
      var n := |xs| - 1;
      MainCallsHold(c, xs[..n]);
      assert xs == xs[..n] + [xs[n]];
      forall e
        ensures e in MainCalls(c, xs) <==> exists x :: x in xs && IsLocal(c, x.definition) && e == CallElement(c, x)
      {
        if e in MainCalls(c, xs) {
          if e in MainCalls(c, xs[..n]) {
            var x :| x in xs[..n] && IsLocal(c, x.definition) && e == CallElement(c, x);
            assert x in xs;
          } else {
            assert xs[n] in xs;
          }
        }
      }
    }
  }

  // (link, folded name) of the calls that name a local definition.
  function LocalCalls(c: Case, elements: seq<Element>): set<(string, string)> {
    set e | e in elements && e.tag == "call" && IsLocal(c, CallName(e)) :: (GetOr(e, Link, ""), Fold(CallName(e)))
  }

  function ExpectedCalls(c: Case): set<(string, string)> {
    set x | x in c.components && IsLocal(c, x.definition) :: (x.id, Fold(x.definition))
  }

  predicate AuditHierarchy(c: Case, hierarchy: Element) { LocalCalls(c, Iter(hierarchy)) == ExpectedCalls(c) }

  // Giving Main other children adds exactly those to the document.
  lemma {:induction false} PutMainIter(e: Element, kids: seq<Element>)
    requires forall k :: k in kids ==> k.children == []
    ensures PutMain(e, kids).Some? <==> PutMain(e, []).Some?
    ensures PutMain(e, kids).Some? ==> forall c: Case ::
              LocalCalls(c, Iter(PutMain(e, kids).value))
                == LocalCalls(c, Iter(PutMain(e, []).value)) + LocalCalls(c, kids)
    decreases e, 1
  {
    if IsMainCall(e) {
      IterLeaves(kids);
      forall c: Case ensures LocalCalls(c, Iter(Element(e.tag, e.attrs, kids)))
                          == LocalCalls(c, Iter(Element(e.tag, e.attrs, []))) + LocalCalls(c, kids) {
        SameHead(c, e, Element(e.tag, e.attrs, kids), Element(e.tag, e.attrs, []), kids);
      }
    } else {
      PutMainInIter(e.children, kids);
      if PutMainIn(e.children, kids).Some? {
        var a, b := PutMainIn(e.children, kids).value, PutMainIn(e.children, []).value;
        forall c: Case ensures LocalCalls(c, Iter(Element(e.tag, e.attrs, a)))
                            == LocalCalls(c, Iter(Element(e.tag, e.attrs, b))) + LocalCalls(c, kids) {
          JoinCalls(c, [Element(e.tag, e.attrs, a)], IterAll(a));
          JoinCalls(c, [Element(e.tag, e.attrs, b)], IterAll(b));
          OneCall(c, Element(e.tag, e.attrs, a), Element(e.tag, e.attrs, b));
        }
      }
    }
  }

  // Whether there is a Main call does not depend on what is put below it.
  lemma {:induction false} PutMainAlways(e: Element, kids: seq<Element>)
    ensures PutMain(e, kids).Some? <==> PutMain(e, []).Some?
    decreases e, 1
  {
    if !IsMainCall(e) { PutMainInAlways(e.children, kids); }
  }

  lemma {:induction false} PutMainInAlways(elements: seq<Element>, kids: seq<Element>)
    ensures PutMainIn(elements, kids).Some? <==> PutMainIn(elements, []).Some?
    decreases elements, 0
  {
    if elements != [] {
      PutMainAlways(elements[0], kids);
      PutMainInAlways(elements[1..], kids);
    }
  }

  lemma {:induction false} OneCall(c: Case, a: Element, b: Element)
    requires a.tag == b.tag && a.attrs == b.attrs
    ensures LocalCalls(c, [a]) == LocalCalls(c, [b])
  {
    assert CallName(a) == CallName(b) && GetOr(a, Link, "") == GetOr(b, Link, "");
    assert a in [a] && b in [b];
  }

  lemma {:induction false} JoinCalls(c: Case, xs: seq<Element>, ys: seq<Element>)
    ensures LocalCalls(c, xs + ys) == LocalCalls(c, xs) + LocalCalls(c, ys)
  {
  }

  lemma {:induction false} SameHead(c: Case, e: Element, a: Element, b: Element, kids: seq<Element>)
    requires a.tag == b.tag && a.attrs == b.attrs && a.children == kids && b.children == [] && IterAll(kids) == kids
    ensures LocalCalls(c, Iter(a)) == LocalCalls(c, Iter(b)) + LocalCalls(c, kids)
  {
    assert Iter(a) == [a] + kids && Iter(b) == [b];
    JoinCalls(c, [a], kids);
    OneCall(c, a, b);
  }

  lemma {:induction false} PutMainInIter(elements: seq<Element>, kids: seq<Element>)
    requires forall k :: k in kids ==> k.children == []
    ensures PutMainIn(elements, kids).Some? <==> PutMainIn(elements, []).Some?
    ensures PutMainIn(elements, kids).Some? ==> forall c: Case ::
              LocalCalls(c, IterAll(PutMainIn(elements, kids).value))
              == LocalCalls(c, IterAll(PutMainIn(elements, []).value)) + LocalCalls(c, kids)
    decreases elements, 0
  {
    if elements != [] {
      PutMainIter(elements[0], kids);
      if PutMain(elements[0], kids).Some? {
        var a, b := PutMain(elements[0], kids).value, PutMain(elements[0], []).value;
        forall c: Case ensures LocalCalls(c, IterAll([a] + elements[1..]))
                            == LocalCalls(c, IterAll([b] + elements[1..])) + LocalCalls(c, kids) {
          ConsCalls(c, a, elements[1..]);
          ConsCalls(c, b, elements[1..]);
        }
      } else {
        PutMainInIter(elements[1..], kids);
        if PutMainIn(elements[1..], kids).Some? {
          var a, b := PutMainIn(elements[1..], kids).value, PutMainIn(elements[1..], []).value;
          forall c: Case ensures LocalCalls(c, IterAll([elements[0]] + a))
                              == LocalCalls(c, IterAll([elements[0]] + b)) + LocalCalls(c, kids) {
            ConsCalls(c, elements[0], a);
            ConsCalls(c, elements[0], b);
          }
        }
      }
    }
  }

  lemma {:induction false} ConsCalls(c: Case, e: Element, rest: seq<Element>)
    ensures LocalCalls(c, IterAll([e] + rest)) == LocalCalls(c, Iter(e)) + LocalCalls(c, IterAll(rest))
  {
    assert ([e] + rest)[1..] == rest;
    JoinCalls(c, Iter(e), IterAll(rest));
  }

  lemma {:induction false} IterLeaves(elements: seq<Element>)
    requires forall e :: e in elements ==> e.children == []
    ensures IterAll(elements) == elements
  {
    if elements != [] {
      assert elements[0] in elements;
      assert Iter(elements[0]) == [elements[0]];
      IterLeaves(elements[1..]);
      assert elements == [elements[0]] + elements[1..];
    }
  }

  // The calls of local definitions a seed makes elsewhere than below Main.
  function StrayCalls(c: Case, seed: Element): set<(string, string)>
    requires PutMain(seed, []).Some?
  {
    LocalCalls(c, Iter(PutMain(seed, []).value))
  }

  // The written hierarchy passes exactly when every local definition the seed
  // calls elsewhere than below Main is called for a component of the case.
  lemma {:induction false} WrittenHierarchyPasses(c: Case, seed: Element)
    requires forall x :: x in c.components && IsLocal(c, x.definition) ==> ':' !in x.definition && x.id != ""
    requires PutMain(seed, []).Some?
    ensures var written := PutMain(seed, MainCalls(c, SortBy(c.components, COMPONENT_ID)));
            written.Some? && (AuditHierarchy(c, written.value) <==> StrayCalls(c, seed) <= ExpectedCalls(c))
  {
    var sorted := SortBy(c.components, COMPONENT_ID);
    var kids := MainCalls(c, sorted);
    SortByKeeps(c.components, COMPONENT_ID);
    MainCallsHold(c, sorted);
    PutMainIter(seed, kids);
    forall x | x in c.components && IsLocal(c, x.definition)
      ensures CallName(CallElement(c, x)) == x.definition && GetOr(CallElement(c, x), Link, "") == x.id {
      LastPartAfter(c.project, x.definition);
      assert c.project + ":" + x.definition != "";
    }
    forall p | p in ExpectedCalls(c) ensures p in LocalCalls(c, kids) {
      var x :| x in c.components && IsLocal(c, x.definition) && p == (x.id, Fold(x.definition));
      assert CallElement(c, x) in kids;
    }
    forall p | p in LocalCalls(c, kids) ensures p in ExpectedCalls(c) {
      var e :| e in kids && e.tag == "call" && IsLocal(c, CallName(e)) && p == (GetOr(e, Link, ""), Fold(CallName(e)));
      var x :| x in sorted && IsLocal(c, x.definition) && e == CallElement(c, x);
    }
  }
}
