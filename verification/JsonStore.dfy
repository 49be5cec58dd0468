/** Flattening, loading and saving a JSON document in a node's store. */
module JsonStore {
  import opened Prelude
  import opened ByteStrings
  import opened Json

  // ---- flattenJSON ----

  /** The slots of out are those of out0 and those of the tree n hung at path. */
  ghost predicate Adds(out0: Slots, out: Slots, path: Path, n: Node) {
    (forall p :: p in out <==> p in out0 || Under(path, p, n)) &&
    (forall p :: p in out && Under(path, p, n) ==> At(n, p[|path|..]) == Some(out[p])) &&
    (forall p :: p in out && !Under(path, p, n) ==> out[p] == out0[p])
  }

  method Walk(path: Path, n: Node, out0: Slots) returns (out: Slots)
    requires Proper(n)
    ensures Adds(out0, out, path, n)
    decreases n
  {
    out := out0[path := Encode(n)];
    match n {
      case Scalar(_, _) => ScalarAdds(out0, path, n);
      case Branch(isArray, kids) =>
        EmptyBranchAdds(out0, path, isArray);
        var i := 0;
        while i < |kids|
          invariant 0 <= i <= |kids| && Adds(out0, out, path, Branch(isArray, kids[..i]))
        {
          var k := kids[i];
          assert k in kids && kids[..i + 1] == kids[..i] + [k];
          ghost var before := out;
          out := Walk(path + [Seg(isArray, k.name)], k.node, out);
          NotYet(kids, i);
          AddsNext(out0, before, out, path, isArray, kids[..i], k);
          i := i + 1;
        }
        assert kids[..|kids|] == kids;
    }
  }

  lemma NotYet(kids: seq<Kid>, i: nat)
    requires KidsAscend(kids) && i < |kids|
    ensures forall j :: 0 <= j < i ==> kids[..i][j].name != kids[i].name
  {
    LessIrreflexive(kids[i].name);
  }

  lemma ScalarAdds(out0: Slots, path: Path, n: Node)
    requires n.Scalar?
    ensures Adds(out0, out0[path := Encode(n)], path, n)
  {
    forall p ensures Under(path, p, n) <==> p == path {
      if path <= p && p != path { assert p[|path|..] != []; }
    }
  }

  lemma EmptyBranchAdds(out0: Slots, path: Path, isArray: bool)
    ensures Adds(out0, out0[path := Encode(Branch(isArray, []))], path, Branch(isArray, []))
  {
    forall p ensures Under(path, p, Branch(isArray, [])) <==> p == path {
      if path <= p && p != path { assert p[|path|..] != []; }
    }
  }

  lemma AddsNext(out0: Slots, mid: Slots, out: Slots, path: Path, isArray: bool, kids: seq<Kid>, k: Kid)
    requires Adds(out0, mid, path, Branch(isArray, kids))
    requires Adds(mid, out, path + [Seg(isArray, k.name)], k.node)
    requires forall j :: 0 <= j < |kids| ==> kids[j].name != k.name
    ensures Adds(out0, out, path, Branch(isArray, kids + [k]))
  {
    var s := Seg(isArray, k.name);
    forall p
      ensures p in out <==> p in out0 || Under(path, p, Branch(isArray, kids + [k]))
      ensures p in out && Under(path, p, Branch(isArray, kids + [k])) ==>
        At(Branch(isArray, kids + [k]), p[|path|..]) == Some(out[p])
      ensures p in out && !Under(path, p, Branch(isArray, kids + [k])) ==> out[p] == out0[p]
    {
      AddsNextAt(out0, mid, out, path, isArray, kids, k, p);
    }
  }

  lemma AddsNextAt(out0: Slots, mid: Slots, out: Slots, path: Path, isArray: bool, kids: seq<Kid>, k: Kid, p: Path)
    requires Adds(out0, mid, path, Branch(isArray, kids))
    requires Adds(mid, out, path + [Seg(isArray, k.name)], k.node)
    requires forall j :: 0 <= j < |kids| ==> kids[j].name != k.name
    ensures p in out <==> p in out0 || Under(path, p, Branch(isArray, kids + [k]))
    ensures p in out && Under(path, p, Branch(isArray, kids + [k])) ==>
      At(Branch(isArray, kids + [k]), p[|path|..]) == Some(out[p])
    ensures p in out && !Under(path, p, Branch(isArray, kids + [k])) ==> out[p] == out0[p]
  {
    var s := Seg(isArray, k.name);
    UnderNext(path, p, isArray, kids, k);
    NothingUnder(path, p, isArray, kids, s);
    assert p in out <==> p in mid || Under(path + [s], p, k.node);
    assert p in mid <==> p in out0 || Under(path, p, Branch(isArray, kids));
  }

  method Flatten(doc: Option<Node>) returns (out: Slots)
    requires doc.Some? ==> Proper(doc.value)
    ensures IsFlat(doc, out) && Filled(out)
  {
    if doc.None? { return map[]; }
    out := Walk([], doc.value, map[]);
    WalkIsFlat(doc.value, out);
  }

  lemma WalkIsFlat(n: Node, out: Slots)
    requires Adds(map[], out, [], n)
    ensures IsFlat(Some(n), out) && Filled(out)
  {
    forall p ensures (p in out <==> At(n, p).Some?) && (p in out ==> At(n, p) == Some(out[p]) && out[p] != []) {
      assert p[0..] == p;
      assert p in out <==> Under([], p, n);
      AtNotEmpty(n, p);
    }
  }

  lemma {:induction false} AtNotEmpty(n: Node, p: Path)
    ensures At(n, p).Some? ==> At(n, p).value != []
    decreases |p|
  {
    if p != [] && Step(n, p[0]).Some? { AtNotEmpty(Step(n, p[0]).value, p[1..]); }
  }

  // ---- loadJSON ----

  method SortNames(names: set<Bytes>) returns (out: seq<Bytes>)
    ensures Ascending(out) && forall x :: x in out <==> x in names
  {
    out := [];
    var left := names;
    while left != {}
      invariant Ascending(out) && left <= names
      invariant forall x :: x in out <==> x in names && x !in left
      decreases |left|
    {
      var x: Bytes :| x in left;
      var i := 0;
      while i < |out| && Less(out[i], x)
        invariant 0 <= i <= |out| && forall j :: 0 <= j < i ==> Less(out[j], x)
      {
        i := i + 1;
      }
      Inserted(out, i, x);
      out := out[..i] + [x] + out[i..];
      left := left - {x};
    }
  }

  lemma Inserted(s: seq<Bytes>, i: nat, x: Bytes)
    requires Ascending(s) && i <= |s| && x !in s
    requires forall j :: 0 <= j < i ==> Less(s[j], x)
    requires i < |s| ==> !Less(s[i], x)
    ensures Ascending(s[..i] + [x] + s[i..])
    ensures forall y :: y in s[..i] + [x] + s[i..] <==> y == x || y in s
  {
    forall j | i <= j < |s| ensures Less(x, s[j]) {
      LessTotal(x, s[i]);
      if j > i { LessTrans(x, s[i], s[j]); }
    }
    assert s == s[..i] + s[i..];
    AscendingInsert(s, i, x);
  }

  lemma AscendingInsert(s: seq<Bytes>, i: nat, x: Bytes)
    requires Ascending(s) && i <= |s|
    requires forall j :: 0 <= j < i ==> Less(s[j], x)
    requires forall j :: i <= j < |s| ==> Less(x, s[j])
    ensures Ascending(s[..i] + [x] + s[i..])
  {
    var t := s[..i] + [x] + s[i..];
    assert forall j :: 0 <= j < |t| ==> t[j] == if j < i then s[j] else if j == i then x else s[j - 1];
  }

  /** The names or positions of a container's live children, in order. */
  method ChildNames(live: Slots, path: Path, isArray: bool) returns (names: seq<Bytes>)
    ensures Ascending(names) && forall x :: x in names <==> path + [Seg(isArray, x)] in live
  {
    var found: set<Bytes> := {};
    var left: set<Path> := live.Keys;
    while left != {}
      invariant forall p :: p in left ==> p in live
      invariant forall x :: x in found ==> path + [Seg(isArray, x)] in live
      invariant forall x :: path + [Seg(isArray, x)] in live && path + [Seg(isArray, x)] !in left ==> x in found
      decreases |left|
    {
      var p: Path :| p in left;
      if |p| == |path| + 1 && p[..|path|] == path && p[|path|].isArray == isArray {
        assert p == path + [Seg(isArray, p[|path|].name)];
        found := found + {p[|path|].name};
      } else {
        forall x ensures p != path + [Seg(isArray, x)] { assert (path + [Seg(isArray, x)])[..|path|] == path; }
      }
      left := left - {p};
    }
    names := SortNames(found);
  }

  /** The paths of flat are those of flat0 and those of the tree n hung at path. */
  ghost predicate AddsPaths(flat0: Slots, flat: Slots, path: Path, n: Node) {
    forall p :: p in flat <==> p in flat0 || Under(path, p, n)
  }

  predicate Copies(live: Slots, flat: Slots) { forall p :: p in flat ==> p in live && flat[p] == live[p] }

  lemma PathsNext(flat0: Slots, mid: Slots, flat: Slots, path: Path, isArray: bool, kids: seq<Kid>, k: Kid)
    requires AddsPaths(flat0, mid, path, Branch(isArray, kids))
    requires AddsPaths(mid, flat, path + [Seg(isArray, k.name)], k.node)
    requires forall j :: 0 <= j < |kids| ==> kids[j].name != k.name
    ensures AddsPaths(flat0, flat, path, Branch(isArray, kids + [k]))
  {
    forall p ensures p in flat <==> p in flat0 || Under(path, p, Branch(isArray, kids + [k])) {
      UnderNext(path, p, isArray, kids, k);
      NothingUnder(path, p, isArray, kids, Seg(isArray, k.name));
      assert p in flat <==> p in mid || Under(path + [Seg(isArray, k.name)], p, k.node);
      assert p in mid <==> p in flat0 || Under(path, p, Branch(isArray, kids));
    }
  }

  lemma PathsStart(flat0: Slots, path: Path, v: Bytes, n: Node)
    requires n.Scalar? || n.kids == []
    ensures AddsPaths(flat0, flat0[path := v], path, n)
  {
    forall p ensures Under(path, p, n) <==> p == path {
      if path <= p && p != path { assert p[|path|..] != []; }
    }
  }

  /** The children built so far stand for their slots. */
  ghost predicate Built(live: Slots, path: Path, isArray: bool, names: seq<Bytes>, kids: seq<Kid>)
    requires Filled(live)
  {
    |kids| <= |names| && forall j :: 0 <= j < |kids| ==> KidStands(live, path, isArray, names[j], kids[j])
  }

  ghost predicate KidStands(live: Slots, path: Path, isArray: bool, name: Bytes, k: Kid)
    requires Filled(live)
  {
    k.name == name && Proper(k.node) && path + [Seg(isArray, name)] in live &&
    StandsFor(live, path + [Seg(isArray, name)], k.node)
  }

  lemma BuiltNext(live: Slots, path: Path, isArray: bool, names: seq<Bytes>, kids: seq<Kid>, n: Node)
    requires Filled(live) && Built(live, path, isArray, names, kids) && |kids| < |names| && Proper(n)
    requires path + [Seg(isArray, names[|kids|])] in live
    requires StandsFor(live, path + [Seg(isArray, names[|kids|])], n)
    ensures Built(live, path, isArray, names, kids + [Kid(names[|kids|], n)])
  {
    assert KidStands(live, path, isArray, names[|kids|], Kid(names[|kids|], n));
  }

  lemma BuiltNames(live: Slots, path: Path, isArray: bool, names: seq<Bytes>, kids: seq<Kid>)
    requires Filled(live) && Built(live, path, isArray, names, kids) && Ascending(names)
    ensures KidsAscend(kids)
    ensures |kids| < |names| ==> forall j :: 0 <= j < |kids| ==> kids[j].name != names[|kids|]
    ensures forall k :: k in kids ==> Proper(k.node)
  {
    forall j | 0 <= j < |kids| ensures kids[j].name == names[j] && Proper(kids[j].node) {
      assert KidStands(live, path, isArray, names[j], kids[j]);
    }
    if |kids| < |names| { LessIrreflexive(names[|kids|]); }
  }

  lemma BranchStands(live: Slots, path: Path, isArray: bool, names: seq<Bytes>, kids: seq<Kid>)
    requires Filled(live) && path in live && live[path][0] == (if isArray then ARRAY else OBJECT)
    requires Ascending(names) && (forall x :: x in names <==> path + [Seg(isArray, x)] in live)
    requires Built(live, path, isArray, names, kids) && |kids| == |names|
    ensures Proper(Branch(isArray, kids)) && StandsFor(live, path, Branch(isArray, kids))
  {
    BuiltNames(live, path, isArray, names, kids);
    var n := Branch(isArray, kids);
    forall q ensures At(n, q) == Seen(live, path, q) {
      if q != [] {
        var s := q[0];
        assert q == [s] + q[1..];
        AtCons(n, s, q[1..]);
        if s.isArray == isArray { ChildStands(live, path, isArray, names, kids, s.name, q[1..]); }
      }
    }
  }

  lemma ChildStands(live: Slots, path: Path, isArray: bool, names: seq<Bytes>, kids: seq<Kid>, name: Bytes, q: Path)
    requires Filled(live) && Ascending(names) && (forall x :: x in names <==> path + [Seg(isArray, x)] in live)
    requires Built(live, path, isArray, names, kids) && |kids| == |names|
    ensures Child(kids, name).Some? <==> path + [Seg(isArray, name)] in live
    ensures Child(kids, name).Some? ==>
      At(Child(kids, name).value, q) == Seen(live, path + [Seg(isArray, name)], q)
  {
    BuiltNames(live, path, isArray, names, kids);
    if name in names {
      var j :| 0 <= j < |names| && names[j] == name;
      assert KidStands(live, path, isArray, names[j], kids[j]);
      ChildIs(kids, j);
    } else {
      forall j | 0 <= j < |kids| ensures kids[j].name != name {
        assert names[j] in names && KidStands(live, path, isArray, names[j], kids[j]);
      }
      ChildNone(kids, name);
    }
  }

  lemma ScalarStands(live: Slots, path: Path)
    requires Filled(live) && path in live && live[path][0] != OBJECT && live[path][0] != ARRAY
    ensures StandsFor(live, path, Scalar(live[path][0], live[path][1..]))
  {
    var v := live[path];
    assert v == [v[0]] + v[1..];
  }

  /** Builds the tree at a live path, noting the slots it is built from. */
  method Build(live: Slots, path: Path, flat0: Slots, ghost bound: nat) returns (n: Node, flat: Slots)
    requires Filled(live) && path in live && Copies(live, flat0) && forall p :: p in live ==> |p| <= bound
    ensures Proper(n) && StandsFor(live, path, n) && AddsPaths(flat0, flat, path, n) && Copies(live, flat)
    decreases bound - |path|, 1
  {
    var v := live[path];
    flat := flat0[path := v];
    if v[0] != OBJECT && v[0] != ARRAY {
      n := Scalar(v[0], v[1..]);
      ScalarStands(live, path);
      PathsStart(flat0, path, v, n);
      return;
    }
    var isArray := v[0] == ARRAY;
    PathsStart(flat0, path, v, Branch(isArray, []));
    n, flat := BuildBranch(live, path, isArray, flat0, flat, bound);
  }

  method BuildBranch(live: Slots, path: Path, isArray: bool, ghost flat0: Slots, flat1: Slots, ghost bound: nat)
    returns (n: Node, flat: Slots)
    requires Filled(live) && path in live && Copies(live, flat1) && forall p :: p in live ==> |p| <= bound
    requires live[path][0] == if isArray then ARRAY else OBJECT
    requires AddsPaths(flat0, flat1, path, Branch(isArray, []))
    ensures Proper(n) && StandsFor(live, path, n) && AddsPaths(flat0, flat, path, n) && Copies(live, flat)
    decreases bound - |path|, 0
  {
    var names := ChildNames(live, path, isArray);
    var kids: seq<Kid> := [];
    flat := flat1;
    while |kids| < |names|
      invariant Built(live, path, isArray, names, kids) && Copies(live, flat)
      invariant AddsPaths(flat0, flat, path, Branch(isArray, kids))
    {
      var name := names[|kids|];
      assert name in names;
      BuiltNames(live, path, isArray, names, kids);
      ghost var mid := flat;
      var node;
      node, flat := Build(live, path + [Seg(isArray, name)], flat, bound);
      PathsNext(flat0, mid, flat, path, isArray, kids, Kid(name, node));
      BuiltNext(live, path, isArray, names, kids, node);
      kids := kids + [Kid(name, node)];
    }
    BranchStands(live, path, isArray, names, kids);
    n := Branch(isArray, kids);
  }

  lemma {:induction false} LengthsBounded(live: Slots) returns (bound: nat)
    ensures forall p :: p in live ==> |p| <= bound
    decreases |live|
  {
    bound := 0;
    if live != map[] {
      var p :| p in live;
      var rest := live - {p};
      assert rest.Keys == live.Keys - {p};
      bound := LengthsBounded(rest);
      if |p| > bound { bound := |p|; }
      assert forall q :: q in live ==> q == p || q in rest;
    }
  }

  /** The document the slots stand for, and the slots it was built from. A document without a root is
      absent, whatever other slots are live. */
  method Load(live: Slots) returns (root: Option<Node>, flat: Slots)
    requires Filled(live)
    ensures root.Some? <==> [] in live
    ensures root.Some? ==> Proper(root.value) && StandsFor(live, [], root.value)
    ensures Copies(live, flat) && forall p :: p in flat <==> AtDoc(root, p).Some?
  {
    if [] !in live { return None, map[]; }
    ghost var bound := LengthsBounded(live);
    var n;
    n, flat := Build(live, [], map[], bound);
    root := Some(n);
    forall p ensures p in flat <==> AtDoc(root, p).Some? {
      assert p[0..] == p;
      assert p in flat <==> Under([], p, n);
    }
  }

  // ---- saveJSONDiff ----

  method SaveDiff(live: Slots, was: Slots, cur: Slots) returns (live': Slots)
    requires Copies(live, was)
    ensures forall p :: p in live' <==> p in cur || (p in live && p !in was)
    ensures forall p :: p in live' ==> live'[p] == if p in cur then cur[p] else live[p]
  {
    live' := live;
    var left: set<Path> := was.Keys;
    while left != {}
      invariant forall p :: p in left ==> p in was
      invariant forall p :: p in live' <==> p in live && (p in cur || p !in was || p in left)
      invariant forall p :: p in live' ==> live'[p] == live[p]
      decreases |left|
    {
      var p: Path :| p in left;
      if p !in cur { live' := live' - {p}; }
      left := left - {p};
    }
    left := cur.Keys;
    while left != {}
      invariant forall p :: p in left ==> p in cur
      invariant forall p :: p in live' <==> (p in live && (p in cur || p !in was)) || (p in cur && p !in left)
      invariant forall p :: p in live' ==> live'[p] == if p in cur && p !in left then cur[p] else live[p]
      decreases |left|
    {
      var p: Path :| p in left;
      if p in was && was[p] == cur[p] {
      } else {
        live' := live'[p := cur[p]];
      }
      left := left - {p};
    }
  }

  // ---- the key ----

  datatype Error = NotFound | Failed

  class JsonKey {
    var live: Slots
    var present: bool

    /** The store holds exactly this document: no slot of a replaced or deleted node is left. */
    ghost predicate Holds(doc: Option<Node>)
      reads this
    {
      IsFlat(doc, live) && Filled(live) && (doc.Some? <==> present) && (doc.Some? ==> Proper(doc.value))
    }

    constructor ()
      ensures Holds(None)
    {
      live, present := map[], false;
    }

    /** Reading gives back exactly the document held, built from all the live slots. */
    method Read(ghost doc: Option<Node>) returns (root: Option<Node>, flat: Slots)
      requires Holds(doc)
      ensures root == doc && flat == live
    {
      RootLive(doc, live);
      root, flat := Load(live);
      if root.Some? { RebuildFlattened(doc.value, live, root.value); }
      assert forall p :: p in flat <==> p in live;
    }

    /** Update: runs f on the document and writes what changed; nothing is written when f fails. */
    method Update(create: bool, f: Option<Node> -> Result<Option<Node>, Error>, ghost doc: Option<Node>)
      returns (r: Result<(), Error>)
      requires Holds(doc) && KeepsProper(f)
      modifies this
      ensures r == if !old(present) && !create then Err(NotFound) else if f(doc).Err? then Err(f(doc).error) else Ok(())
      ensures r.Err? ==> live == old(live) && present == old(present)
      ensures r.Ok? ==> Holds(f(doc).value)
    {
      if !present && !create { return Err(NotFound); }
      var root, was := Read(doc);
      var res := f(root);
      if res.Err? { return Err(res.error); }
      var cur := Flatten(res.value);
      live := SaveDiff(live, was, cur);
      assert live == cur;
      if res.value.None? && present {
        present := false;
      } else if res.value.Some? && !present {
        present := true;
      }
      return Ok(());
    }

    /** deleteJSON. */
    method Delete(ghost doc: Option<Node>)
      requires Holds(doc)
      modifies this
      ensures Holds(None) && live == map[]
    {
      var root, was := Read(doc);
      live := SaveDiff(live, was, map[]);
      present := false;
    }
  }

  /** An edit leaves proper documents proper: array positions stay strictly increasing. */
  ghost predicate KeepsProper(f: Option<Node> -> Result<Option<Node>, Error>) {
    forall d: Option<Node> :: (d.Some? ==> Proper(d.value)) && f(d).Ok? && f(d).value.Some? ==> Proper(f(d).value.value)
  }

  lemma RootLive(doc: Option<Node>, live: Slots)
    requires IsFlat(doc, live)
    ensures doc.Some? <==> [] in live
  {
    assert [] in live <==> AtDoc(doc, []).Some?;
  }
}
