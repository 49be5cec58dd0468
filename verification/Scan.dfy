/** Keyspace SCAN: pages cut at key boundaries and resumed by position, over a keyspace that may change
    arbitrarily between pages. */
module Scan {
  import opened Prelude
  import opened ByteStrings
  import opened ScanOrder

  const DEFAULT_COUNT: nat := 10

  function Count(hint: int): nat { if hint <= 0 then DEFAULT_COUNT else hint }

  /** A resume position: the bucket to go on in, and the last metadata key consumed ([] for none). */
  datatype Pos = Pos(p: nat, last: Bytes)

  const START := Pos(0, [])

  function Bucket(c: Layout, s: Slot): nat { c.bucket(s.name) }

  function Text(c: Layout, s: Slot): Bytes { Str(c, Bucket(c, s), s) }

  /** The entry is still to be walked from this position. */
  predicate After(c: Layout, q: Pos, s: Slot) {
    Bucket(c, s) > q.p || (Bucket(c, s) == q.p && (q.last == [] || !LessEq(Text(c, s), q.last)))
  }

  predicate Precedes(c: Layout, s: Slot, t: Slot) {
    Bucket(c, s) < Bucket(c, t) || (Bucket(c, s) == Bucket(c, t) && Less(Text(c, s), Text(c, t)))
  }

  /** The query of each bucket, sorted. */
  ghost predicate Lists(c: Layout, ks: set<Slot>, parts: seq<seq<Slot>>) {
    |parts| == BUCKETS &&
    (forall p, s :: 0 <= p < BUCKETS ==> (s in parts[p] <==> s in ks && Bucket(c, s) == p)) &&
    (forall p :: 0 <= p < BUCKETS ==> Sorted(c, parts[p]))
  }

  predicate Sorted(c: Layout, raw: seq<Slot>) {
    forall i, j :: 0 <= i < j < |raw| ==> Less(Text(c, raw[i]), Text(c, raw[j]))
  }

  predicate Distinct(keys: seq<Bytes>) { forall i, j :: 0 <= i < j < |keys| ==> keys[i] != keys[j] }

  ghost predicate Has(ks: set<Slot>, name: Bytes) { exists s :: s in ks && s.name == name }

  // ---- the state of a walk ----

  ghost function Todo(c: Layout, ks: set<Slot>, from: Pos): set<Slot> { set s | s in ks && After(c, from, s) }

  /** The entries seen come before all others still to be walked. */
  ghost predicate Initial(c: Layout, todo: set<Slot>, seen: set<Slot>) {
    seen <= todo && forall s, t :: s in seen && t in todo && t !in seen ==> Precedes(c, s, t)
  }

  /** t is the next entry to walk. */
  ghost predicate NextUp(c: Layout, todo: set<Slot>, seen: set<Slot>, t: Slot) {
    t in todo && t !in seen && forall u :: u in todo && u !in seen && u != t ==> Precedes(c, t, u)
  }

  /** What the walk has gathered from the entries seen. */
  ghost predicate Gathered(keep: Bytes -> bool, seen: set<Slot>, keys: seq<Bytes>) {
    Distinct(keys) &&
    (forall s :: s in seen && s.name != [] && keep(s.name) ==> s.name in keys) &&
    (forall n :: n in keys ==> n != [] && keep(n) && Has(seen, n))
  }

  /** f is the last named entry seen: the one consumed. */
  ghost predicate Frontier(c: Layout, seen: set<Slot>, cur: Bytes, f: Slot) {
    if cur == [] then forall s :: s in seen ==> s.name == []
    else f in seen && f.name == cur && forall s :: s in seen && s.name != [] && s != f ==> Precedes(c, s, f)
  }

  lemma SeeNext(c: Layout, todo: set<Slot>, seen: set<Slot>, t: Slot)
    requires Initial(c, todo, seen) && NextUp(c, todo, seen, t)
    ensures Initial(c, todo, seen + {t})
  {}

  /** A new name at the head of what remains was not gathered before: its block is contiguous. */
  lemma NameIsFresh(c: Layout, todo: set<Slot>, seen: set<Slot>, cur: Bytes, f: Slot, t: Slot, u: Slot)
    requires Good(c) && Initial(c, todo, seen) && Frontier(c, seen, cur, f)
    requires t in todo && t !in seen && t.name != [] && t.name != cur && u in seen
    ensures u.name != t.name
  {
    if u.name == t.name {
      assert Precedes(c, u, t) && Precedes(c, f, t) && Precedes(c, u, f);
      Contiguous(c, Bucket(c, t), u, f, t);
    }
  }

  lemma Gather(c: Layout, keep: Bytes -> bool, todo: set<Slot>, seen: set<Slot>, keys: seq<Bytes>, cur: Bytes, f: Slot,
               t: Slot)
    requires Good(c) && Initial(c, todo, seen) && NextUp(c, todo, seen, t)
    requires Gathered(keep, seen, keys) && Frontier(c, seen, cur, f)
    ensures t.name == [] ==> Gathered(keep, seen + {t}, keys) && Frontier(c, seen + {t}, cur, f)
    ensures t.name != [] ==> Frontier(c, seen + {t}, t.name, t)
    ensures t.name != [] && t.name == cur ==> Gathered(keep, seen + {t}, keys)
    ensures t.name != [] && t.name != cur ==>
      Gathered(keep, seen + {t}, if keep(t.name) then keys + [t.name] else keys)
  {
    if t.name != [] && t.name != cur {
      forall n | n in keys ensures n != t.name {
        var u :| u in seen && u.name == n;
        NameIsFresh(c, todo, seen, cur, f, t, u);
      }
    }
    forall n | n in keys + [t.name] ensures Has(seen + {t}, n) {
      if n in keys {
        var u :| u in seen && u.name == n;
        assert u in seen + {t};
      } else {
        assert t in seen + {t};
      }
    }
  }

  lemma SomeCurrent(c: Layout, keep: Bytes -> bool, seen: set<Slot>, keys: seq<Bytes>, cur: Bytes, f: Slot)
    requires Gathered(keep, seen, keys) && Frontier(c, seen, cur, f) && keys != []
    ensures cur != []
  {
    assert keys[0] in keys;
  }

  // ---- one page ----

  /** What a page promises. No next position means the scan is complete. */
  ghost predicate IsPage(c: Layout, ks: set<Slot>, keep: Bytes -> bool, from: Pos, count: nat, keys: seq<Bytes>,
                         next: Option<Pos>) {
    Distinct(keys) && |keys| <= count &&
    (forall n :: n in keys ==> n != [] && keep(n) && Has(Todo(c, ks, from), n)) &&
    match next
    case None => forall s :: s in Todo(c, ks, from) && s.name != [] && keep(s.name) ==> s.name in keys
    case Some(q) =>
      && |keys| == count
      && (forall s :: s in Todo(c, ks, from) && s.name != [] && keep(s.name) && !After(c, q, s) ==> s.name in keys)
      && (forall s :: s in Todo(c, ks, q) ==> s in Todo(c, ks, from) && s.name !in keys)
      && Boundary(c, ks, keep, keys, q)
  }

  /** The position is at an entry of this page, in this bucket or an earlier one. */
  ghost predicate Boundary(c: Layout, ks: set<Slot>, keep: Bytes -> bool, keys: seq<Bytes>, q: Pos) {
    exists f :: f in ks && f.name != [] && q.last == Text(c, f) && Bucket(c, f) <= q.p < BUCKETS &&
      (keep(f.name) ==> f.name in keys)
  }

  /** Where the cut leaves each entry, given the entry consumed last. */
  lemma CutSide(c: Layout, ks: set<Slot>, from: Pos, p: nat, seen: set<Slot>, f: Slot, s: Slot)
    requires Good(c) && from.p <= p < BUCKETS && s in ks && f in seen && Bucket(c, f) <= p
    requires Initial(c, Todo(c, ks, from), seen)
    requires forall u :: u in seen && u.name != [] && u != f ==> Precedes(c, u, f)
    requires forall u :: u in Todo(c, ks, from) && u !in seen ==> Bucket(c, u) >= p
    ensures s in seen && s.name != [] ==> !After(c, Pos(p, Text(c, f)), s)
    ensures s in Todo(c, ks, from) && s !in seen ==> After(c, Pos(p, Text(c, f)), s)
    ensures s !in Todo(c, ks, from) ==> !After(c, Pos(p, Text(c, f)), s)
  {
    var sT, fT := Text(c, s), Text(c, f);
    LessTotal(sT, fT);
    if s in Todo(c, ks, from) {
      if s !in seen && Bucket(c, f) < Bucket(c, s) { BucketOrder(c, Bucket(c, f), f, Bucket(c, s), s); }
    } else if Bucket(c, s) == from.p && from.p == p {
      LessTotal(fT, from.last);
      LessLeftTrans(sT, from.last, fT);
    }
  }

  /** Cutting before t, whose name is new, gives a page. */
  lemma CutIsPage(c: Layout, ks: set<Slot>, keep: Bytes -> bool, from: Pos, count: nat, keys: seq<Bytes>,
                  seen: set<Slot>, cur: Bytes, f: Slot, t: Slot)
    requires Good(c) && from.p <= Bucket(c, t) && |keys| == count > 0
    requires Initial(c, Todo(c, ks, from), seen) && NextUp(c, Todo(c, ks, from), seen, t)
    requires Gathered(keep, seen, keys) && Frontier(c, seen, cur, f) && cur != [] && t.name != [] && t.name != cur
    ensures IsPage(c, ks, keep, from, count, keys, Some(Pos(Bucket(c, t), Text(c, f))))
  {
    var p := Bucket(c, t);
    var q := Pos(p, Text(c, f));
    var todo := Todo(c, ks, from);
    assert Precedes(c, f, t);
    forall s | s in ks
      ensures s in seen && s.name != [] ==> !After(c, q, s)
      ensures s in todo && s !in seen ==> After(c, q, s)
      ensures s !in todo ==> !After(c, q, s)
    {
      CutSide(c, ks, from, p, seen, f, s);
    }
    forall s | s in Todo(c, ks, q) ensures s.name !in keys {
      if s.name in keys {
        var u :| u in seen && u.name == s.name;
        LaterNameIsFresh(c, todo, seen, cur, f, t, u, s);
      }
    }
    forall n | n in keys ensures Has(todo, n) {
      var s :| s in seen && s.name == n;
      assert s in todo;
    }
    assert f in ks && f.name != [];
  }

  lemma LaterNameIsFresh(c: Layout, todo: set<Slot>, seen: set<Slot>, cur: Bytes, f: Slot, t: Slot, u: Slot, s: Slot)
    requires Good(c) && Initial(c, todo, seen) && NextUp(c, todo, seen, t) && Frontier(c, seen, cur, f)
    requires t.name != [] && cur != [] && t.name != cur && u in seen && s in todo && s !in seen && s.name != []
    ensures u.name != s.name
  {
    if s == t || s.name != cur {
      NameIsFresh(c, todo, seen, cur, f, s, u);
    } else {
      assert Precedes(c, f, t) && Precedes(c, t, s);
      Contiguous(c, Bucket(c, t), f, t, s);
    }
  }

  lemma DoneIsPage(c: Layout, ks: set<Slot>, keep: Bytes -> bool, from: Pos, count: nat, keys: seq<Bytes>)
    requires Gathered(keep, Todo(c, ks, from), keys) && |keys| <= count
    ensures IsPage(c, ks, keep, from, count, keys, None)
  {}

  // ---- scanKeys ----

  /** All entries of earlier buckets, and the first i of this one, that were to be walked are seen. */
  ghost predicate WalkedTo(c: Layout, todo: set<Slot>, seen: set<Slot>, raw: seq<Slot>, p: nat, i: nat)
    requires i <= |raw|
  {
    (forall s :: s in todo && Bucket(c, s) < p ==> s in seen) &&
    (forall j :: 0 <= j < i && raw[j] in todo ==> raw[j] in seen) &&
    (forall s :: s in seen ==> Bucket(c, s) <= p) &&
    (forall j :: i <= j < |raw| ==> raw[j] !in seen)
  }

  lemma ThisIsNext(c: Layout, ks: set<Slot>, todo: set<Slot>, seen: set<Slot>, parts: seq<seq<Slot>>, p: nat, i: nat)
    requires Lists(c, ks, parts) && p < BUCKETS && i < |parts[p]| && todo <= ks
    requires WalkedTo(c, todo, seen, parts[p], p, i) && parts[p][i] in todo
    ensures NextUp(c, todo, seen, parts[p][i])
    ensures WalkedTo(c, todo, seen + {parts[p][i]}, parts[p], p, i + 1)
  {
    var raw := parts[p];
    var t := raw[i];
    assert t in raw && Sorted(c, raw);
    forall u | u in todo && u !in seen && u != t ensures Precedes(c, t, u) {
      if Bucket(c, u) == p {
        assert u in raw;
        var j :| 0 <= j < |raw| && raw[j] == u;
      }
    }
    forall j | i < j < |raw| ensures raw[j] != t {
      LessIrreflexive(Text(c, t));
    }
  }

  /** One bucket of the walk: stops before the first new key once count keys are gathered. */
  method ScanBucket(c: Layout, ghost ks: set<Slot>, parts: seq<seq<Slot>>, from: Pos, count: nat, keep: Bytes -> bool,
                    p: nat, keys0: seq<Bytes>, cur0: Bytes, last0: Bytes, ghost seen0: set<Slot>, ghost f0: Slot)
    returns (keys: seq<Bytes>, cur: Bytes, last: Bytes, cut: bool, ghost seen: set<Slot>, ghost f: Slot)
    requires Good(c) && Lists(c, ks, parts) && from.p <= p < BUCKETS && count > 0 && |keys0| <= count
    requires WalkedTo(c, Todo(c, ks, from), seen0, parts[p], p, 0) && Initial(c, Todo(c, ks, from), seen0)
    requires Gathered(keep, seen0, keys0) && Frontier(c, seen0, cur0, f0)
    requires last0 == if cur0 == [] then from.last else Text(c, f0)
    ensures cut ==> IsPage(c, ks, keep, from, count, keys, Some(Pos(p, last)))
    ensures !cut ==> |keys| <= count && WalkedTo(c, Todo(c, ks, from), seen, parts[p], p, |parts[p]|)
    ensures !cut ==> Initial(c, Todo(c, ks, from), seen) && Gathered(keep, seen, keys) && Frontier(c, seen, cur, f)
    ensures !cut ==> last == if cur == [] then from.last else Text(c, f)
  {
    var raw := parts[p];
    ghost var todo := Todo(c, ks, from);
    keys, cur, last, seen, f := keys0, cur0, last0, seen0, f0;
    var i := 0;
    while i < |raw|
      invariant 0 <= i <= |raw| && |keys| <= count
      invariant WalkedTo(c, todo, seen, raw, p, i) && Initial(c, todo, seen)
      invariant Gathered(keep, seen, keys) && Frontier(c, seen, cur, f)
      invariant last == if cur == [] then from.last else Text(c, f)
    {
      ghost var t := raw[i];
      assert t in parts[p];
      var k := Str(c, p, raw[i]);
      if p == from.p && from.last != [] && LessEq(k, from.last) {
        assert t !in todo;
      } else {
        assert t in todo;
        ThisIsNext(c, ks, todo, seen, parts, p, i);
        NameDecoded(c, p, raw[i]);
        var name := KeyNameFromMeta(c, k, ScanOrder.Prefix(c, p));
        if name != [] && name != cur && |keys| >= count {
          SomeCurrent(c, keep, seen, keys, cur, f);
          CutIsPage(c, ks, keep, from, count, keys, seen, cur, f, t);
          cut := true;
          return;
        }
        SeeNext(c, todo, seen, t);
        Gather(c, keep, todo, seen, keys, cur, f, t);
        seen := seen + {t};
        if name != [] {
          if name != cur {
            cur := name;
            if keep(name) { keys := keys + [name]; }
          }
          last, f := k, t;
        }
      }
      i := i + 1;
    }
    cut := false;
  }

  lemma NextBucket(c: Layout, ks: set<Slot>, todo: set<Slot>, seen: set<Slot>, parts: seq<seq<Slot>>, p: nat)
    requires Lists(c, ks, parts) && p < BUCKETS && todo <= ks
    requires WalkedTo(c, todo, seen, parts[p], p, |parts[p]|)
    ensures forall s :: s in todo && Bucket(c, s) < p + 1 ==> s in seen
    ensures p + 1 < BUCKETS ==> WalkedTo(c, todo, seen, parts[p + 1], p + 1, 0)
  {
    forall s | s in todo && Bucket(c, s) == p ensures s in seen { assert s in parts[p]; }
    if p + 1 < BUCKETS {
      var raw := parts[p + 1];
      forall j | 0 <= j < |raw| ensures raw[j] !in seen { assert raw[j] in raw; }
    }
  }

  /** scanKeys. */
  method ScanKeys(c: Layout, ghost ks: set<Slot>, parts: seq<seq<Slot>>, from: Pos, count: nat, keep: Bytes -> bool)
    returns (keys: seq<Bytes>, next: Option<Pos>)
    requires Good(c) && Lists(c, ks, parts) && from.p < BUCKETS && count > 0
    ensures IsPage(c, ks, keep, from, count, keys, next)
    ensures next.Some? ==> next.value.p < BUCKETS
  {
    ghost var todo := Todo(c, ks, from);
    var cur, last := [], from.last;
    keys := [];
    ghost var seen: set<Slot>, f := {}, Slot([], []);
    var p := from.p;
    while p < BUCKETS
      invariant from.p <= p <= BUCKETS && |keys| <= count
      invariant forall s :: s in todo && Bucket(c, s) < p ==> s in seen
      invariant p < BUCKETS ==> WalkedTo(c, todo, seen, parts[p], p, 0)
      invariant Initial(c, todo, seen) && Gathered(keep, seen, keys) && Frontier(c, seen, cur, f)
      invariant last == if cur == [] then from.last else Text(c, f)
    {
      var cut: bool;
      keys, cur, last, cut, seen, f :=
        ScanBucket(c, ks, parts, from, count, keep, p, keys, cur, last, seen, f);
      if cut { return keys, Some(Pos(p, last)); }
      NextBucket(c, ks, todo, seen, parts, p);
      p := p + 1;
    }
    assert seen == todo;
    DoneIsPage(c, ks, keep, from, count, keys);
    return keys, None;
  }

  // ---- whole scans ----

  datatype Page = Page(ks: set<Slot>, keep: Bytes -> bool, from: Pos, keys: seq<Bytes>, next: Option<Pos>)

  /** Pages linked by their positions; the keyspace and the filter may be different on each. */
  ghost predicate IsScan(c: Layout, count: nat, pages: seq<Page>) {
    pages != [] && pages[0].from == START &&
    (forall i :: 0 <= i < |pages| ==>
      IsPage(c, pages[i].ks, pages[i].keep, pages[i].from, count, pages[i].keys, pages[i].next)) &&
    (forall i :: 0 <= i < |pages| - 1 ==> pages[i].next == Some(pages[i + 1].from))
  }

  /** Every entry the key could have lies ahead. */
  ghost predicate AllAhead(c: Layout, q: Pos, name: Bytes) { forall rep :: After(c, q, Slot(name, rep)) }

  ghost predicate Wanted(page: Page, name: Bytes) { page.keep(name) && Has(page.ks, name) }

  /** A page either returns a wanted key that lies ahead, or leaves all of it ahead of the next page. */
  lemma ReturnedOrAhead(c: Layout, count: nat, page: Page, name: Bytes)
    requires Good(c) && IsPage(c, page.ks, page.keep, page.from, count, page.keys, page.next)
    requires name != [] && Wanted(page, name) && AllAhead(c, page.from, name)
    ensures name in page.keys || (page.next.Some? && AllAhead(c, page.next.value, name))
  {
    var s :| s in page.ks && s.name == name;
    assert s == Slot(name, s.rep);
    if name !in page.keys {
      assert s in Todo(c, page.ks, page.from);
      var q := page.next.value;
      assert After(c, q, s);
      var f :| f in page.ks && f.name != [] && q.last == Text(c, f) && Bucket(c, f) <= q.p < BUCKETS &&
        (page.keep(f.name) ==> f.name in page.keys);
      forall rep ensures After(c, q, Slot(name, rep)) { StaysAhead(c, q, f, s, Slot(name, rep)); }
    }
  }

  lemma StaysAhead(c: Layout, q: Pos, f: Slot, s: Slot, t: Slot)
    requires Good(c) && q.last == Text(c, f) && Bucket(c, f) <= q.p < BUCKETS
    requires s.name == t.name && f.name != s.name && After(c, q, s)
    ensures After(c, q, t)
  {
    if Bucket(c, s) == q.p {
      LessTotal(Text(c, s), Text(c, f));
      LessTotal(Text(c, t), Text(c, f));
      if Bucket(c, f) == q.p { OneSide(c, q.p, f, s, t); } else { BucketOrder(c, Bucket(c, f), f, q.p, t); }
    }
  }

  lemma {:induction false} AheadUntilReturned(c: Layout, count: nat, pages: seq<Page>, name: Bytes, i: nat)
    requires Good(c) && IsScan(c, count, pages) && i < |pages| && name != []
    requires forall j :: 0 <= j < i ==> Wanted(pages[j], name) && name !in pages[j].keys
    ensures AllAhead(c, pages[i].from, name)
  {
    if i > 0 {
      AheadUntilReturned(c, count, pages, name, i - 1);
      ReturnedOrAhead(c, count, pages[i - 1], name);
    }
  }

  /** A scan followed to its end returns every key that was there, live and matching, on every page,
      whatever else changed between pages. */
  lemma ScanComplete(c: Layout, count: nat, pages: seq<Page>, name: Bytes)
    requires Good(c) && IsScan(c, count, pages) && pages[|pages| - 1].next.None? && name != []
    requires forall i :: 0 <= i < |pages| ==> Wanted(pages[i], name)
    ensures exists i :: 0 <= i < |pages| && name in pages[i].keys
  {
    if forall i :: 0 <= i < |pages| ==> name !in pages[i].keys {
      var n := |pages| - 1;
      AheadUntilReturned(c, count, pages, name, n);
      ReturnedOrAhead(c, count, pages[n], name);
    }
  }

  /** An entry that decodes to the empty name is never returned. */
  lemma EmptyNameNeverReturned(c: Layout, count: nat, pages: seq<Page>, i: nat)
    requires IsScan(c, count, pages) && i < |pages|
    ensures [] !in pages[i].keys
  {
    assert IsPage(c, pages[i].ks, pages[i].keep, pages[i].from, count, pages[i].keys, pages[i].next);
  }

  // ---- an unchanged keyspace ----

  ghost predicate Unchanged(pages: seq<Page>) {
    forall i :: 0 <= i < |pages| ==> pages[i].ks == pages[0].ks && pages[i].keep == pages[0].keep
  }

  lemma {:induction false} TodoShrinks(c: Layout, count: nat, pages: seq<Page>, i: nat, j: nat)
    requires IsScan(c, count, pages) && Unchanged(pages) && i < j < |pages|
    ensures Todo(c, pages[0].ks, pages[j].from) <= Todo(c, pages[0].ks, pages[i + 1].from)
  {
    if i + 1 < j {
      TodoShrinks(c, count, pages, i, j - 1);
      var g := pages[j - 1];
      assert IsPage(c, g.ks, g.keep, g.from, count, g.keys, g.next) && g.next == Some(pages[j].from);
    }
  }

  lemma NeverTwice(c: Layout, count: nat, pages: seq<Page>, i: nat, j: nat, name: Bytes)
    requires IsScan(c, count, pages) && Unchanged(pages) && i < j < |pages| && name in pages[i].keys
    ensures name !in pages[j].keys
  {
    TodoShrinks(c, count, pages, i, j);
    var g, h := pages[i], pages[j];
    assert IsPage(c, g.ks, g.keep, g.from, count, g.keys, g.next) && g.next == Some(pages[i + 1].from);
    assert IsPage(c, h.ks, h.keep, h.from, count, h.keys, h.next);
    forall s | s in Todo(c, h.ks, h.from) ensures s.name !in g.keys {
      assert s in Todo(c, g.ks, pages[i + 1].from);
    }
    assert name in h.keys ==> Has(Todo(c, h.ks, h.from), name);
  }

  function Returned(pages: seq<Page>): seq<Bytes> {
    if pages == [] then [] else Returned(pages[..|pages| - 1]) + pages[|pages| - 1].keys
  }

  lemma {:induction false} ReturnedFrom(pages: seq<Page>, name: Bytes)
    requires name in Returned(pages)
    ensures exists i :: 0 <= i < |pages| && name in pages[i].keys
  {
    var n := |pages| - 1;
    if name !in pages[n].keys {
      ReturnedFrom(pages[..n], name);
      var i :| 0 <= i < n && name in pages[..n][i].keys;
      assert name in pages[i].keys;
    }
  }

  lemma {:induction false} ReturnedLength(pages: seq<Page>, count: nat)
    requires forall i :: 0 <= i < |pages| ==> |pages[i].keys| == count
    ensures |Returned(pages)| == |pages| * count
  {
    if pages != [] {
      var n := |pages| - 1;
      ReturnedLength(pages[..n], count);
      assert (n + 1) * count == n * count + count;
    }
  }

  lemma DistinctConcat(a: seq<Bytes>, b: seq<Bytes>)
    requires Distinct(a) && Distinct(b) && forall x :: x in a ==> x !in b
    ensures Distinct(a + b)
  {
    var c := a + b;
    forall i, j | 0 <= i < j < |c| ensures c[i] != c[j] {
      if i < |a| <= j { assert c[i] in a && c[j] == b[j - |a|]; }
    }
  }

  lemma {:induction false} ReturnedDistinct(c: Layout, count: nat, pages: seq<Page>, n: nat)
    requires IsScan(c, count, pages) && Unchanged(pages) && n <= |pages|
    ensures Distinct(Returned(pages[..n]))
  {
    if n > 0 {
      ReturnedDistinct(c, count, pages, n - 1);
      assert pages[..n][..n - 1] == pages[..n - 1];
      var g := pages[n - 1];
      assert IsPage(c, g.ks, g.keep, g.from, count, g.keys, g.next);
      forall name | name in Returned(pages[..n - 1]) ensures name !in g.keys {
        ReturnedFrom(pages[..n - 1], name);
        var i :| 0 <= i < n - 1 && name in pages[..n - 1][i].keys;
        NeverTwice(c, count, pages, i, n - 1, name);
      }
      DistinctConcat(Returned(pages[..n - 1]), g.keys);
    }
  }

  lemma {:induction false} DistinctFits(keys: seq<Bytes>, names: set<Bytes>)
    requires Distinct(keys) && forall k :: k in keys ==> k in names
    ensures |keys| <= |names|
  {
    if keys != [] {
      var k := keys[|keys| - 1];
      assert k in keys;
      DistinctFits(keys[..|keys| - 1], names - {k});
    }
  }

  /** On an unchanged keyspace each wanted key is returned exactly once, and the scan ends: the pages
      before the last hold count keys each. */
  lemma ScanExactlyOnce(c: Layout, count: nat, pages: seq<Page>, name: Bytes)
    requires Good(c) && IsScan(c, count, pages) && Unchanged(pages) && pages[|pages| - 1].next.None?
    ensures Distinct(Returned(pages))
    ensures name in Returned(pages) <==> name != [] && Wanted(pages[0], name)
  {
    ReturnedDistinct(c, count, pages, |pages|);
    assert pages[..|pages|] == pages;
    if name in Returned(pages) {
      ReturnedInKeyspace(c, count, pages, name);
    } else if name != [] && Wanted(pages[0], name) {
      ScanComplete(c, count, pages, name);
      var i :| 0 <= i < |pages| && name in pages[i].keys;
      ReturnedHas(pages, i, name);
    }
  }

  lemma {:induction false} ReturnedHas(pages: seq<Page>, i: nat, name: Bytes)
    requires i < |pages| && name in pages[i].keys
    ensures name in Returned(pages)
  {
    if i < |pages| - 1 { ReturnedHas(pages[..|pages| - 1], i, name); }
  }

  lemma ScanEnds(c: Layout, count: nat, pages: seq<Page>)
    requires IsScan(c, count, pages) && Unchanged(pages)
    requires forall i :: 0 <= i < |pages| ==> pages[i].next.Some?
    ensures |pages| * count <= |set s | s in pages[0].ks :: s.name|
  {
    ReturnedDistinct(c, count, pages, |pages|);
    assert pages[..|pages|] == pages;
    forall i | 0 <= i < |pages| ensures |pages[i].keys| == count {
      var g := pages[i];
      assert IsPage(c, g.ks, g.keep, g.from, count, g.keys, g.next);
    }
    ReturnedLength(pages, count);
    var names := set s | s in pages[0].ks :: s.name;
    forall name | name in Returned(pages) ensures name in names { ReturnedInKeyspace(c, count, pages, name); }
    DistinctFits(Returned(pages), names);
  }

  lemma ReturnedInKeyspace(c: Layout, count: nat, pages: seq<Page>, name: Bytes)
    requires IsScan(c, count, pages) && Unchanged(pages) && name in Returned(pages)
    ensures name != [] && Wanted(pages[0], name)
  {
    ReturnedFrom(pages, name);
    var i :| 0 <= i < |pages| && name in pages[i].keys;
    var g := pages[i];
    assert IsPage(c, g.ks, g.keep, g.from, count, g.keys, g.next);
    var s :| s in Todo(c, g.ks, g.from) && s.name == name;
    assert s in pages[0].ks;
  }
}
