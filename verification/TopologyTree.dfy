// Element trees as the topology corpus writes and audits them.
module TopologyTree {
  import opened Options
  import opened PyText

  // The attribute names that carry meaning for the corpus.
  datatype Attr =
    | Id | Name | Value | Text | Defn | Definition | X | Y | Orient | Orientation | Kind | Type | Dim | Dimension
    | Required | Page | Namespace | Scope | ClassId | Link

  datatype Element = Element(tag: string, attrs: map<Attr, string>, children: seq<Element>)

  function Get(e: Element, a: Attr): Option<string> { if a in e.attrs then Some(e.attrs[a]) else None }

  // The attribute, or the default where it is missing or empty.
  function GetOr(e: Element, a: Attr, default: string): string {
    if a in e.attrs && e.attrs[a] != "" then e.attrs[a] else default
  }

  // ---- text ----

  function Lower(c: char): char { if 'A' <= c <= 'Z' then (c as int + 32) as char else c }

  // Case folding of ASCII text.
  function Fold(s: string): (r: string)
    ensures |r| == |s|
  {
    seq(|s|, i requires 0 <= i < |s| => Lower(s[i]))
  }

  // What follows the last colon, or the whole text.
  function LastPart(s: string): string {
    if s == "" || s[|s| - 1] == ':' then "" else LastPart(s[..|s| - 1]) + [s[|s| - 1]]
  }

  lemma {:induction false} LastPartAfter(scope: string, name: string)
    requires ':' !in name
    ensures LastPart(scope + ":" + name) == name
  {
    var s := scope + ":" + name;
    if name != "" {
      var n := |name| - 1;
      assert s[..|s| - 1] == scope + ":" + name[..n];
      assert s[|s| - 1] == name[n] && name[n] in name;
      LastPartAfter(scope, name[..n]);
      assert name[..n] + [name[n]] == name;
    }
  }

  lemma {:induction false} LastPartPlain(name: string)
    requires ':' !in name
    ensures LastPart(name) == name
  {
    if name != "" {
      var n := |name| - 1;
      assert name[n] in name;
      LastPartPlain(name[..n]);
      assert name[..n] + [name[n]] == name;
    }
  }

  predicate EndsWith(s: string, suffix: string) { |suffix| <= |s| && s[|s| - |suffix|..] == suffix }

  // Writing and reading integers; reading what was written gives the number back.
  datatype Numerals = Numerals(show: int -> string, read: string -> Option<int>)

  ghost predicate Exact(num: Numerals) {
    num.read("") == None && forall n: int :: num.read(num.show(n)) == Some(n)
  }

  type Point = (int, int)

  // _point
  function PointOf(num: Numerals, e: Element): Option<Point> {
    var x, y := num.read(GetOr(e, X, "")), num.read(GetOr(e, Y, ""));
    if x.Some? && y.Some? then Some((x.value, y.value)) else None
  }

  // _integer_attribute over two names: the first one present decides.
  function IntegerOf(num: Numerals, e: Element, first: Attr, second: Attr): Option<int> {
    if Get(e, first).Some? then num.read(Get(e, first).value)
    else if Get(e, second).Some? then num.read(Get(e, second).value)
    else None
  }

  // _boolean_attribute
  predicate Flag(e: Element, a: Attr) { Get(e, a).Some? && Fold(Get(e, a).value) in ["1", "true", "yes", "on"] }

  // ---- dictionaries keyed by an attribute ----

  datatype Sort = Components | Conductors | Labels | Ports

  predicate IsLabel(e: Element) {
    Fold(e.tag) in ["label", "nodelabel", "datalabel"]
    || EndsWith(Fold(GetOr(e, Defn, "")), ":nodelabel") || EndsWith(Fold(GetOr(e, Defn, "")), ":datalabel")
  }

  predicate Belongs(sort: Sort, e: Element) {
    match sort
    case Components => Fold(e.tag) in ["user", "component"] && !IsLabel(e)
    case Conductors => Fold(e.tag) in ["wire", "bus"]
    case Labels => IsLabel(e)
    case Ports => Fold(e.tag) == "port"
  }

  function KeyOf(sort: Sort, e: Element): string { GetOr(e, if sort.Ports? then Name else Id, "") }

  // The elements of one sort by their key; a later one replaces an earlier one
  // and one without a key is passed over.
  function Observed(sort: Sort, elements: seq<Element>): map<string, Element> {
    if elements == [] then map[] else
      var last := elements[|elements| - 1];
      var m := Observed(sort, elements[..|elements| - 1]);
      if Belongs(sort, last) && KeyOf(sort, last) != "" then m[KeyOf(sort, last) := last] else m
  }

  lemma {:induction false} ObservedSource(sort: Sort, elements: seq<Element>, key: string)
    requires key in Observed(sort, elements)
    ensures var e := Observed(sort, elements)[key];
            e in elements && Belongs(sort, e) && KeyOf(sort, e) == key && key != ""
  {
    var last, rest := elements[|elements| - 1], elements[..|elements| - 1];
    if !(Belongs(sort, last) && KeyOf(sort, last) == key && key != "") { ObservedSource(sort, rest, key); }
  }

  lemma {:induction false} ObservedHolds(sort: Sort, elements: seq<Element>, e: Element)
    requires e in elements && Belongs(sort, e) && KeyOf(sort, e) != ""
    ensures KeyOf(sort, e) in Observed(sort, elements)
  {
    var n := |elements| - 1;
    if e != elements[n] {
      assert elements == elements[..n] + [elements[n]];
      ObservedHolds(sort, elements[..n], e);
    }
  }

  // ---- sorting by identifier ----

  function InsertBy<T>(x: T, sorted: seq<T>, key: T -> string): seq<T> {
    if sorted == [] || Less(key(x), key(sorted[0])) then [x] + sorted
    else [sorted[0]] + InsertBy(x, sorted[1..], key)
  }

  // The items in the order of their keys.
  function SortBy<T>(items: seq<T>, key: T -> string): seq<T> {
    if items == [] then [] else InsertBy(items[|items| - 1], SortBy(items[..|items| - 1], key), key)
  }

  lemma {:induction false} SortOne<T>(x: T, key: T -> string)
    ensures SortBy([x], key) == [x]
  {
    assert [x][..0] == [];
    assert SortBy([x][..0], key) == [];
  }

  lemma {:induction false} InsertByKeeps<T>(x: T, sorted: seq<T>, key: T -> string)
    ensures |InsertBy(x, sorted, key)| == 1 + |sorted|
    ensures forall y :: y in InsertBy(x, sorted, key) <==> y == x || y in sorted
  {
    if sorted != [] && !Less(key(x), key(sorted[0])) {
      InsertByKeeps(x, sorted[1..], key);
      assert sorted == [sorted[0]] + sorted[1..];
    }
  }

  lemma {:induction false} SortByKeeps<T>(items: seq<T>, key: T -> string)
    ensures |SortBy(items, key)| == |items| && forall y :: y in SortBy(items, key) <==> y in items
  {
    if items != [] {
      var n := |items| - 1;
      SortByKeeps(items[..n], key);
      InsertByKeeps(items[n], SortBy(items[..n], key), key);
      assert items == items[..n] + [items[n]];
    }
  }

  // The keys never fall.
  predicate Ascends<T>(items: seq<T>, key: T -> string) {
    forall i, j :: 0 <= i < j < |items| ==> !Less(key(items[j]), key(items[i]))
  }

  // The items with this key, in their order.
  function Having<T>(items: seq<T>, key: T -> string, id: string): seq<T> {
    if items == [] then [] else
      var n := |items| - 1;
      Having(items[..n], key, id) + if key(items[n]) == id then [items[n]] else []
  }

  lemma {:induction false} HavingJoins<T>(a: seq<T>, b: seq<T>, key: T -> string, id: string)
    ensures Having(a + b, key, id) == Having(a, key, id) + Having(b, key, id)
  {
    if b == [] {
      assert a + b == a;
    } else {
      var n := |b| - 1;
      HavingJoins(a, b[..n], key, id);
      assert (a + b)[..|a + b| - 1] == a + b[..n];
    }
  }

  lemma {:induction false} HavingFirst<T>(x: T, rest: seq<T>, key: T -> string, id: string)
    ensures Having([x] + rest, key, id) == (if key(x) == id then [x] else []) + Having(rest, key, id)
  {
    assert Having([x][..0], key, id) == [];
    HavingJoins([x], rest, key, id);
  }

  lemma {:induction false} HavingNone<T>(a: seq<T>, key: T -> string, id: string)
    requires forall i :: 0 <= i < |a| ==> key(a[i]) != id
    ensures Having(a, key, id) == []
  {
    if a != [] { HavingNone(a[..|a| - 1], key, id); }
  }

  // An item that goes before the first goes before all, and has no equal there.
  lemma {:induction false} BeforeAll<T>(x: T, sorted: seq<T>, key: T -> string)
    requires Ascends(sorted, key) && sorted != [] && Less(key(x), key(sorted[0]))
    ensures forall j :: 0 <= j < |sorted| ==> !Less(key(sorted[j]), key(x)) && key(sorted[j]) != key(x)
  {
    forall j | 0 <= j < |sorted| ensures !Less(key(sorted[j]), key(x)) && key(sorted[j]) != key(x) {
      LessTrichotomy(key(sorted[0]), key(sorted[j]));
      if Less(key(sorted[0]), key(sorted[j])) { LessTransitive(key(x), key(sorted[0]), key(sorted[j])); }
      LessTrichotomy(key(x), key(sorted[j]));
      LessTrichotomy(key(x), key(x));
    }
  }

  lemma {:induction false} ConsAscends<T>(x: T, rest: seq<T>, key: T -> string)
    requires Ascends(rest, key) && forall y :: y in rest ==> !Less(key(y), key(x))
    ensures Ascends([x] + rest, key)
  {
    var all := [x] + rest;
    forall i, j | 0 <= i < j < |all| ensures !Less(key(all[j]), key(all[i])) {
      assert all[j] == rest[j - 1] && rest[j - 1] in rest;
      if i > 0 { assert all[i] == rest[i - 1]; }
    }
  }

  lemma {:induction false} TailAscends<T>(sorted: seq<T>, key: T -> string)
    requires Ascends(sorted, key) && sorted != []
    ensures Ascends(sorted[1..], key) && forall y :: y in sorted[1..] ==> !Less(key(y), key(sorted[0]))
  {
    forall y | y in sorted[1..] ensures !Less(key(y), key(sorted[0])) {
      var i :| 0 <= i < |sorted[1..]| && sorted[1..][i] == y;
      assert sorted[i + 1] == y;
    }
    forall i, j | 0 <= i < j < |sorted[1..]| ensures !Less(key(sorted[1..][j]), key(sorted[1..][i])) {
      assert !Less(key(sorted[j + 1]), key(sorted[i + 1]));
    }
  }

  lemma {:induction false} InsertedIn<T>(x: T, sorted: seq<T>, key: T -> string, y: T)
    requires y in InsertBy(x, sorted, key)
    ensures y == x || y in sorted
  {
    InsertByKeeps(x, sorted, key);
  }

  lemma {:induction false} InsertByAscends<T>(x: T, sorted: seq<T>, key: T -> string)
    requires Ascends(sorted, key)
    ensures Ascends(InsertBy(x, sorted, key), key)
  {
    if sorted == [] {
    } else if Less(key(x), key(sorted[0])) {
      BeforeAll(x, sorted, key);
      forall y | y in sorted ensures !Less(key(y), key(x)) {
        var j :| 0 <= j < |sorted| && sorted[j] == y;
      }
      ConsAscends(x, sorted, key);
    } else {
      var rest := InsertBy(x, sorted[1..], key);
      TailAscends(sorted, key);
      InsertByAscends(x, sorted[1..], key);
      forall y | y in rest ensures !Less(key(y), key(sorted[0])) { InsertedIn(x, sorted[1..], key, y); }
      ConsAscends(sorted[0], rest, key);
    }
  }

  // An inserted item goes behind its equals.
  lemma {:induction false} InsertByHaving<T>(x: T, sorted: seq<T>, key: T -> string, id: string)
    requires Ascends(sorted, key)
    ensures Having(InsertBy(x, sorted, key), key, id) == Having(sorted, key, id) + if key(x) == id then [x] else []
  {
    if sorted == [] {
      HavingFirst(x, [], key, id);
      assert [x] + [] == [x];
    } else if Less(key(x), key(sorted[0])) {
      BeforeAll(x, sorted, key);
      HavingFirst(x, sorted, key, id);
      if key(x) == id { HavingNone(sorted, key, id); }
    } else {
      TailAscends(sorted, key);
      InsertByHaving(x, sorted[1..], key, id);
      HavingFirst(sorted[0], InsertBy(x, sorted[1..], key), key, id);
      HavingFirst(sorted[0], sorted[1..], key, id);
      assert sorted == [sorted[0]] + sorted[1..];
    }
  }

  // Sorting is stable: the keys never fall, and the items with one key stay in
  // their order.
  lemma {:induction false} SortByOrders<T>(items: seq<T>, key: T -> string, id: string)
    ensures Ascends(SortBy(items, key), key)
    ensures Having(SortBy(items, key), key, id) == Having(items, key, id)
  {
    if items != [] {
      var n := |items| - 1;
      SortByOrders(items[..n], key, id);
      InsertByAscends(items[n], SortBy(items[..n], key), key);
      InsertByHaving(items[n], SortBy(items[..n], key), key, id);
    }
  }

  // The items in the order of their keys, those with one key as they came.
  ghost predicate InOrder<T>(sorted: seq<T>, items: seq<T>, key: T -> string) {
    Ascends(sorted, key) && forall id :: Having(sorted, key, id) == Having(items, key, id)
  }

  lemma {:induction false} SortByInOrder<T>(items: seq<T>, key: T -> string)
    ensures InOrder(SortBy(items, key), items, key)
  {
    SortByOrders(items, key, "");
    forall id ensures Having(SortBy(items, key), key, id) == Having(items, key, id) {
      SortByOrders(items, key, id);
    }
  }

  // ---- document order ----

  // The element and everything below it, in document order.
  function Iter(e: Element): seq<Element>
    decreases e, 1
  {
    [e] + IterAll(e.children)
  }

  function IterAll(kids: seq<Element>): seq<Element>
    decreases kids, 0
  {
    if kids == [] then [] else Iter(kids[0]) + IterAll(kids[1..])
  }
}
