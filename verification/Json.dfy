/** JSON documents kept as one slot per node, keyed by the node's path, against the tree they stand for.
    One replica, so writing a slot replaces it and a deleted slot removes it. */
module Json {
  import opened Prelude
  import opened ByteStrings

  const OBJECT: nat := 5
  const ARRAY: nat := 6

  /** A step of a path: an object field by name, or an array element by position. */
  datatype Seg = Seg(isArray: bool, name: Bytes)

  type Path = seq<Seg>

  /** A scalar with its raw text, or an object or array with its children in order of their names or
      positions. (An object's fields are unordered; this is their one listing in order.) */
  datatype Node = Scalar(kind: nat, raw: Bytes) | Branch(isArray: bool, kids: seq<Kid>)

  datatype Kid = Kid(name: Bytes, node: Node)

  predicate Ascending(names: seq<Bytes>) { forall i, j :: 0 <= i < j < |names| ==> Less(names[i], names[j]) }

  predicate KidsAscend(kids: seq<Kid>) { forall i, j :: 0 <= i < j < |kids| ==> Less(kids[i].name, kids[j].name) }

  /** Array positions strictly increase, field names are distinct, scalars have a scalar's kind. */
  predicate Proper(n: Node) {
    match n
    case Scalar(kind, raw) => kind != OBJECT && kind != ARRAY
    case Branch(isArray, kids) => KidsAscend(kids) && forall k :: k in kids ==> Proper(k.node)
  }

  /** encodeJSONNode: the kind byte and the raw text; containers have no text. */
  function Encode(n: Node): (v: Bytes)
    ensures v != []
  {
    match n
    case Scalar(kind, raw) => [kind] + raw
    case Branch(isArray, _) => [if isArray then ARRAY else OBJECT]
  }

  // ---- reading a tree by path ----

  /** The child with this name. */
  function Child(kids: seq<Kid>, name: Bytes): (c: Option<Node>)
    ensures c.Some? ==> Kid(name, c.value) in kids
  {
    if kids == [] then None
    else
      var k := kids[|kids| - 1];
      assert k in kids;
      if k.name == name then Some(k.node) else Child(kids[..|kids| - 1], name)
  }

  function Step(n: Node, s: Seg): Option<Node> {
    if n.Branch? && n.isArray == s.isArray then Child(n.kids, s.name) else None
  }

  /** The slot value at a path of the tree. */
  function At(n: Node, path: Path): Option<Bytes>
    decreases |path|
  {
    if path == [] then Some(Encode(n))
    else match Step(n, path[0])
      case None => None
      case Some(c) => At(c, path[1..])
  }

  function AtDoc(doc: Option<Node>, path: Path): Option<Bytes> {
    if doc.None? then None else At(doc.value, path)
  }

  type Slots = map<Path, Bytes>

  /** The slots are exactly the flattening of the document. */
  ghost predicate IsFlat(doc: Option<Node>, live: Slots) {
    (forall p :: p in live <==> AtDoc(doc, p).Some?) && (forall p :: p in live ==> AtDoc(doc, p) == Some(live[p]))
  }

  // ---- a tree is determined by its slots ----

  lemma {:induction false} ChildIs(kids: seq<Kid>, i: nat)
    requires KidsAscend(kids) && i < |kids|
    ensures Child(kids, kids[i].name) == Some(kids[i].node)
  {
    var n := |kids| - 1;
    if i < n {
      LessIrreflexive(kids[i].name);
      ChildIs(kids[..n], i);
    }
  }

  lemma {:induction false} ChildNone(kids: seq<Kid>, name: Bytes)
    requires forall i :: 0 <= i < |kids| ==> kids[i].name != name
    ensures Child(kids, name) == None
  {
    if kids != [] { ChildNone(kids[..|kids| - 1], name); }
  }

  /** Two proper trees with the same slots are the same tree. */
  lemma {:induction false} SameSlotsSameTree(a: Node, b: Node)
    requires Proper(a) && Proper(b) && forall p :: At(a, p) == At(b, p)
    ensures a == b
    decreases a
  {
    assert At(a, []) == At(b, []);
    assert Encode(a)[0] == Encode(b)[0] && Encode(a)[1..] == Encode(b)[1..];
    if a.Branch? {
      SameChildren(a, b);
      SameKids(a.kids, b.kids);
    }
  }

  lemma AtCons(n: Node, s: Seg, p: Path)
    ensures At(n, [s] + p) == if Step(n, s).None? then None else At(Step(n, s).value, p)
  {
    assert ([s] + p)[1..] == p;
  }

  lemma {:induction false} SameChildren(a: Node, b: Node)
    requires a.Branch? && b.Branch? && a.isArray == b.isArray && Proper(a) && Proper(b)
    requires forall p :: At(a, p) == At(b, p)
    ensures forall name :: Child(a.kids, name) == Child(b.kids, name)
    decreases a, 0
  {
    forall name ensures Child(a.kids, name) == Child(b.kids, name) {
      var s := Seg(a.isArray, name);
      var x, y := Step(a, s), Step(b, s);
      AtCons(a, s, []);
      AtCons(b, s, []);
      assert At(a, [s] + []) == At(b, [s] + []);
      if x.Some? {
        forall p ensures At(x.value, p) == At(y.value, p) {
          AtCons(a, s, p);
          AtCons(b, s, p);
          assert At(a, [s] + p) == At(b, [s] + p);
        }
        var k, j := Kid(name, x.value), Kid(name, y.value);
        assert k in a.kids && j in b.kids;
        SameSlotsSameTree(k.node, j.node);
      }
    }
  }

  /** Ascending lists with the same children are the same list. */
  lemma {:induction false} SameKids(a: seq<Kid>, b: seq<Kid>)
    requires KidsAscend(a) && KidsAscend(b) && forall name :: Child(a, name) == Child(b, name)
    ensures a == b
  {
    forall i | 0 <= i < |a| ensures a[i] in b { ChildIs(a, i); }
    forall i | 0 <= i < |b| ensures b[i] in a { ChildIs(b, i); }
    SameAscending(a, b);
  }

  ghost predicate Within(a: seq<Kid>, b: seq<Kid>) { forall i :: 0 <= i < |a| ==> a[i] in b }

  lemma {:induction false} SameAscending(a: seq<Kid>, b: seq<Kid>)
    requires KidsAscend(a) && KidsAscend(b) && Within(a, b) && Within(b, a)
    ensures a == b
  {
    NotEmpty(a, b);
    NotEmpty(b, a);
    if a != [] {
      var n, m := |a| - 1, |b| - 1;
      SameLast(a, b);
      WithinInit(a, b);
      WithinInit(b, a);
      SameAscending(a[..n], b[..m]);
      Rejoin(a, b);
    }
  }

  lemma NotEmpty(a: seq<Kid>, b: seq<Kid>)
    requires Within(a, b)
    ensures a != [] ==> b != []
  {
    assert a != [] ==> a[0] in b;
  }

  lemma Rejoin(a: seq<Kid>, b: seq<Kid>)
    requires a != [] && b != [] && a[..|a| - 1] == b[..|b| - 1] && a[|a| - 1] == b[|b| - 1]
    ensures a == b
  {
    assert a == a[..|a| - 1] + [a[|a| - 1]] && b == b[..|b| - 1] + [b[|b| - 1]];
  }

  lemma SameLast(a: seq<Kid>, b: seq<Kid>)
    requires KidsAscend(a) && KidsAscend(b) && Within(a, b) && Within(b, a) && a != [] && b != []
    ensures a[|a| - 1] == b[|b| - 1]
  {
    var x, y := a[|a| - 1], b[|b| - 1];
    assert x in b && y in a;
    var i :| 0 <= i < |b| && b[i] == x;
    var j :| 0 <= j < |a| && a[j] == y;
    LessTotal(x.name, y.name);
  }

  lemma WithinInit(a: seq<Kid>, b: seq<Kid>)
    requires KidsAscend(a) && Within(a, b) && a != [] && b != [] && a[|a| - 1] == b[|b| - 1]
    ensures Within(a[..|a| - 1], b[..|b| - 1])
  {
    forall i | 0 <= i < |a| - 1 ensures a[i] in b[..|b| - 1] {
      LessIrreflexive(a[i].name);
      assert a[i] in b && Less(a[i].name, a[|a| - 1].name);
      assert b == b[..|b| - 1] + [b[|b| - 1]];
    }
  }

  // ---- what a set of slots stands for ----

  predicate Filled(live: Slots) { forall p :: p in live ==> live[p] != [] }

  /** The slot as the loader keeps it: containers lose their text. */
  function Canon(v: Bytes): (c: Bytes)
    requires v != []
    ensures c != []
  {
    if v[0] == OBJECT || v[0] == ARRAY then [v[0]] else v
  }

  predicate Fits(v: Bytes, s: Seg)
    requires v != []
  {
    v[0] == if s.isArray then ARRAY else OBJECT
  }

  /** What is reachable from a live path: live slots whose every parent is a live container of the right kind. */
  function Seen(live: Slots, path: Path, q: Path): Option<Bytes>
    requires Filled(live) && path in live
    decreases |q|
  {
    if q == [] then Some(Canon(live[path]))
    else if Fits(live[path], q[0]) && path + [q[0]] in live then Seen(live, path + [q[0]], q[1..])
    else None
  }

  ghost predicate StandsFor(live: Slots, path: Path, n: Node)
    requires Filled(live) && path in live
  {
    forall q :: At(n, q) == Seen(live, path, q)
  }

  /** Rebuilding from the slots of a flattened tree gives back the tree: whatever proper tree the slots
      stand for is that tree. */
  lemma RebuildFlattened(t: Node, live: Slots, n: Node)
    requires Proper(t) && IsFlat(Some(t), live) && Filled(live) && [] in live
    requires Proper(n) && StandsFor(live, [], n)
    ensures n == t
  {
    HangsRoot(t);
    forall p ensures At(n, p) == At(t, p) { SeenIsAt(t, t, live, [], p); }
    SameSlotsSameTree(n, t);
  }

  /** sub is the subtree of t at path. */
  ghost predicate Hangs(t: Node, path: Path, sub: Node) { forall r :: At(t, path + r) == At(sub, r) }

  lemma HangsRoot(t: Node)
    ensures Hangs(t, [], t)
  {
    forall r: Path ensures At(t, [] + r) == At(t, r) { assert [] + r == r; }
  }

  lemma HangsChild(t: Node, path: Path, sub: Node, s: Seg)
    requires Hangs(t, path, sub)
    ensures At(t, path) == Some(Encode(sub))
    ensures At(t, path + [s]).Some? <==> Step(sub, s).Some?
    ensures Step(sub, s).Some? ==> Hangs(t, path + [s], Step(sub, s).value)
  {
    assert path + [] == path && At(t, path + []) == At(sub, []);
    AtCons(sub, s, []);
    assert [s] + [] == [s] && At(t, path + [s]) == At(sub, [s]);
    if Step(sub, s).Some? {
      forall r ensures At(t, path + [s] + r) == At(Step(sub, s).value, r) {
        AtCons(sub, s, r);
        assert path + [s] + r == path + ([s] + r);
      }
    }
  }

  lemma {:induction false} SeenIsAt(t: Node, sub: Node, live: Slots, path: Path, q: Path)
    requires IsFlat(Some(t), live) && Filled(live) && path in live && Proper(sub) && Hangs(t, path, sub)
    ensures Seen(live, path, q) == At(sub, q)
    decreases |q|
  {
    if q == [] {
      HangsChild(t, path, sub, Seg(false, []));
    } else {
      var s := q[0];
      HangsChild(t, path, sub, s);
      assert AtDoc(Some(t), path) == Some(live[path]);
      assert q == [s] + q[1..];
      AtCons(sub, s, q[1..]);
      if Step(sub, s).Some? {
        assert Kid(s.name, Step(sub, s).value) in sub.kids;
        SeenIsAt(t, Step(sub, s).value, live, path + [s], q[1..]);
      }
    }
  }

  /** p is a node of the tree n hung at path. */
  predicate Under(path: Path, p: Path, n: Node) { path <= p && At(n, p[|path|..]).Some? }

  /** Adding one more child adds exactly that child's nodes. */
  lemma UnderNext(path: Path, p: Path, isArray: bool, kids: seq<Kid>, k: Kid)
    ensures path + [Seg(isArray, k.name)] <= p ==>
      At(Branch(isArray, kids + [k]), p[|path|..]) == At(k.node, p[|path| + 1..])
    ensures path <= p && !(path + [Seg(isArray, k.name)] <= p) ==>
      At(Branch(isArray, kids + [k]), p[|path|..]) == At(Branch(isArray, kids), p[|path|..])
    ensures Under(path, p, Branch(isArray, kids + [k])) <==>
      if path + [Seg(isArray, k.name)] <= p then Under(path + [Seg(isArray, k.name)], p, k.node)
      else Under(path, p, Branch(isArray, kids))
  {
    if path <= p && p != path {
      var q := p[|path|..];
      assert p == path + q && q == [q[0]] + q[1..] && q[1..] == p[|path| + 1..];
      assert (kids + [k])[..|kids|] == kids;
      AtCons(Branch(isArray, kids + [k]), q[0], q[1..]);
      AtCons(Branch(isArray, kids), q[0], q[1..]);
      assert path + [Seg(isArray, k.name)] <= p <==> q[0] == Seg(isArray, k.name);
    }
  }

  /** A name not among the children reaches nothing. */
  lemma NothingUnder(path: Path, p: Path, isArray: bool, kids: seq<Kid>, s: Seg)
    requires s.isArray == isArray && forall i :: 0 <= i < |kids| ==> kids[i].name != s.name
    ensures path + [s] <= p ==> !Under(path, p, Branch(isArray, kids))
  {
    ChildNone(kids, s.name);
    if path + [s] <= p { assert p[|path|..][0] == s; }
  }
}
