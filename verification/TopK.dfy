/** Space-Saving top-k: one replica's summary, and the merge of many. */
module TopK {
  import opened Prelude
  import opened ByteStrings

  datatype Entry = Entry(count: int, err: int)

  type Summary = map<Bytes, Entry>

  /** One update: an item and a positive number of occurrences. */
  datatype Update = Update(item: Bytes, inc: int)

  function True(stream: seq<Update>, x: Bytes): (t: int)
    decreases |stream|
  {
    if stream == [] then 0
    else True(stream[..|stream| - 1], x) +
         if stream[|stream| - 1].item == x then stream[|stream| - 1].inc else 0
  }

  function Total(stream: seq<Update>): (t: int)
    decreases |stream|
  {
    if stream == [] then 0 else Total(stream[..|stream| - 1]) + stream[|stream| - 1].inc
  }

  predicate Positive(stream: seq<Update>) {
    forall i :: 0 <= i < |stream| ==> stream[i].inc > 0
  }

  // ---- the minimum entry ----

  predicate Before(s: Summary, a: Bytes, b: Bytes)
    requires a in s && b in s
  {
    s[a].count < s[b].count || (s[a].count == s[b].count && LessEq(a, b))
  }

  /** The entry eviction picks: least count, ties by name. */
  ghost predicate IsMin(s: Summary, k: Bytes) {
    k in s && forall n :: n in s ==> Before(s, k, n)
  }

  lemma MinUnique(s: Summary, a: Bytes, b: Bytes)
    requires IsMin(s, a) && IsMin(s, b)
    ensures a == b
  {
    assert Before(s, a, b) && Before(s, b, a);
    LessTotal(a, b);
  }

  /** Space-Saving's update, given the entry to evict when there is no free slot. */
  function Added(s: Summary, item: Bytes, inc: int, slots: nat, min: Bytes): Summary
    requires item in s || |s| < slots || min in s
  {
    if item in s then s[item := s[item].(count := s[item].count + inc)]
    else if |s| < slots then s[item := Entry(inc, 0)]
    else (s - {min})[item := Entry(s[min].count + inc, s[min].count)]
  }

  /** The scan of a full summary, in whatever order the map yields its entries. */
  method FindMin(s: Summary) returns (best: Bytes)
    requires s != map[]
    ensures IsMin(s, best)
  {
    best :| best in s;
    var left := s.Keys - {best};
    while left != {}
      invariant best in s && best !in left
      invariant forall n :: n in left ==> n in s
      invariant forall n :: n in s && n !in left ==> Before(s, best, n)
      decreases |left|
    {
      var n :| n in left;
      if s[n].count < s[best].count || (s[n].count == s[best].count && Less(n, best)) {
        forall k | k in s && k !in left ensures Before(s, n, k) { BeforeTrans(s, n, best, k); }
        best := n;
      } else {
        LessTotal(n, best);
      }
      left := left - {n};
    }
  }

  lemma BeforeTrans(s: Summary, a: Bytes, b: Bytes, c: Bytes)
    requires a in s && b in s && c in s && Before(s, a, b) && Before(s, b, c)
    ensures Before(s, a, c)
  {
    if a != b && b != c && Less(a, b) && Less(b, c) { LessTrans(a, b, c); }
  }

  // ---- sums over a summary ----

  ghost function Sum(s: Summary): int
    decreases |s|
  {
    if s == map[] then 0
    else
      var k :| k in s;
      Shrinks(s, k);
      s[k].count + Sum(s - {k})
  }

  lemma Shrinks(s: Summary, k: Bytes)
    requires k in s
    ensures |s - {k}| == |s| - 1
  {
    assert (s - {k}).Keys == s.Keys - {k};
  }

  lemma {:induction false} SumRemove(s: Summary, k: Bytes)
    requires k in s
    ensures Sum(s) == s[k].count + Sum(s - {k})
    decreases |s|
  {
    var j :| j in s && Sum(s) == s[j].count + Sum(s - {j});
    if j != k {
      Shrinks(s, j);
      SumRemove(s - {j}, k);
      assert s - {j} - {k} == s - {k} - {j};
      Shrinks(s, k);
      SumRemove(s - {k}, j);
    }
  }

  lemma SumSet(s: Summary, k: Bytes, e: Entry)
    ensures Sum(s[k := e]) == Sum(s - {k}) + e.count
  {
    SumRemove(s[k := e], k);
    assert s[k := e] - {k} == s - {k};
  }

  lemma {:induction false} SumBound(s: Summary, c: int)
    requires forall n :: n in s ==> c <= s[n].count
    ensures |s| * c <= Sum(s)
    decreases |s|
  {
    if s != map[] {
      var k :| k in s;
      Shrinks(s, k);
      SumRemove(s, k);
      SumBound(s - {k}, c);
      OneMore(|s - {k}|, c);
    }
  }

  lemma OneMore(n: nat, c: int)
    ensures (n + 1) * c == n * c + c
  {}

  // ---- the Space-Saving invariant ----

  lemma AddedSum(s: Summary, item: Bytes, inc: int, slots: nat, min: Bytes)
    requires item in s || |s| < slots || min in s
    ensures Sum(Added(s, item, inc, slots, min)) == Sum(s) + inc
  {
    if item in s {
      SumRemove(s, item);
      SumSet(s, item, s[item].(count := s[item].count + inc));
    } else if |s| < slots {
      assert s - {item} == s;
      SumSet(s, item, Entry(inc, 0));
    } else {
      SumRemove(s, min);
      assert s - {min} - {item} == s - {min};
      SumSet(s - {min}, item, Entry(s[min].count + inc, s[min].count));
    }
  }

  /** Summary s describes a stream with true counts t: no recorded error and no untracked item's
      true count exceeds the floor f, and no count is below it. */
  ghost predicate Describes(s: Summary, t: Bytes -> int, f: int) {
    && (forall x :: x in s ==> EntryOk(s[x], t(x), f))
    && (forall x :: x !in s ==> 0 <= t(x) <= f)
  }

  predicate EntryOk(e: Entry, t: int, f: int) {
    0 <= e.err <= f <= e.count && e.count - e.err <= t <= e.count
  }

  ghost predicate Steps(t: Bytes -> int, t': Bytes -> int, u: Update) {
    forall x :: t'(x) == t(x) + if u.item == x then u.inc else 0
  }

  /** An update keeps the description; only an eviction raises the floor, to the evicted count. */
  lemma AddedDescribes(s: Summary, t: Bytes -> int, t': Bytes -> int, f: int, u: Update, slots: nat, min: Bytes)
    requires Describes(s, t, f) && u.inc > 0 && Steps(t, t', u) && 0 <= f && (|s| < slots ==> f == 0)
    requires u.item in s || |s| < slots || IsMin(s, min)
    ensures Describes(Added(s, u.item, u.inc, slots, min), t', if u.item in s || |s| < slots then f else s[min].count)
  {
    var s' := Added(s, u.item, u.inc, slots, min);
    if u.item !in s && |s| >= slots {
      forall x | x in s' ensures EntryOk(s'[x], t'(x), s[min].count) {
        if x != u.item { assert Before(s, min, x) && EntryOk(s[x], t(x), f); }
        else { assert EntryOk(s[min], t(min), f); }
      }
      forall x | x !in s' ensures 0 <= t'(x) <= s[min].count { assert EntryOk(s[min], t(min), f); }
    }
  }

  lemma TrueSnoc(stream: seq<Update>, u: Update, x: Bytes)
    ensures True(stream + [u], x) == True(stream, x) + if u.item == x then u.inc else 0
    ensures Total(stream + [u]) == Total(stream) + u.inc
  {
    assert (stream + [u])[..|stream|] == stream;
  }

  ghost function Truth(stream: seq<Update>): Bytes -> int { x => True(stream, x) }

  ghost predicate Step(s: Summary, u: Update, m: nat, s': Summary) {
    exists min :: (u.item in s || |s| < m || IsMin(s, min)) && s' == Added(s, u.item, u.inc, m, min)
  }

  ghost predicate IsRun(ss: seq<Summary>, stream: seq<Update>, m: nat) {
    && |ss| == |stream| + 1 && ss[0] == map[]
    && forall i :: 0 <= i < |stream| ==> Step(ss[i], stream[i], m, ss[i + 1])
  }

  /** Every summary a replica can reach: its own stream folded in, one update after another. */
  ghost predicate Reached(s: Summary, stream: seq<Update>, m: nat) {
    exists ss :: IsRun(ss, stream, m) && ss[|stream|] == s
  }

  /** Summary s, after stream, with floor f: what every step keeps. */
  ghost predicate Good(s: Summary, stream: seq<Update>, m: nat, f: int) {
    && |s| <= m && 0 <= f && (|s| < m ==> f == 0)
    && Sum(s) == Total(stream) && Describes(s, Truth(stream), f)
  }

  lemma StepGood(p: Summary, rest: seq<Update>, m: nat, f: int, u: Update, s: Summary) returns (f': int)
    requires Good(p, rest, m, f) && u.inc > 0 && Step(p, u, m, s)
    ensures Good(s, rest + [u], m, f')
  {
    var min :| (u.item in p || |p| < m || IsMin(p, min)) && s == Added(p, u.item, u.inc, m, min);
    f' := AddedReached(p, rest, m, f, u, min);
  }

  lemma {:induction false} RunDescribes(ss: seq<Summary>, stream: seq<Update>, m: nat, i: nat) returns (f: int)
    requires IsRun(ss, stream, m) && Positive(stream) && i <= |stream|
    ensures Good(ss[i], stream[..i], m, f)
  {
    f := 0;
    if i == 0 {
      assert stream[..0] == [];
    } else {
      f := RunDescribes(ss, stream, m, i - 1);
      assert stream[..i] == stream[..i - 1] + [stream[i - 1]];
      assert Step(ss[i - 1], stream[i - 1], m, ss[i - 1 + 1]);
      f := StepGood(ss[i - 1], stream[..i - 1], m, f, stream[i - 1], ss[i]);
    }
  }

  lemma ReachedDescribes(s: Summary, stream: seq<Update>, m: nat) returns (f: int)
    requires Reached(s, stream, m) && Positive(stream)
    ensures |s| <= m && 0 <= f && (|s| < m ==> f == 0)
    ensures Sum(s) == Total(stream) && Describes(s, Truth(stream), f)
  {
    var ss :| IsRun(ss, stream, m) && ss[|stream|] == s;
    f := RunDescribes(ss, stream, m, |stream|);
    assert stream[..|stream|] == stream;
  }

  lemma AddedReached(p: Summary, rest: seq<Update>, m: nat, f: int, u: Update, min: Bytes) returns (f': int)
    requires |p| <= m && 0 <= f && (|p| < m ==> f == 0) && u.inc > 0
    requires Sum(p) == Total(rest) && Describes(p, Truth(rest), f)
    requires u.item in p || |p| < m || IsMin(p, min)
    ensures var s := Added(p, u.item, u.inc, m, min);
      && |s| <= m && 0 <= f' && (|s| < m ==> f' == 0)
      && Sum(s) == Total(rest + [u]) && Describes(s, Truth(rest + [u]), f')
  {
    f' := if u.item in p || |p| < m then f else p[min].count;
    AddedSum(p, u.item, u.inc, m, min);
    TrueSnoc(rest, u, u.item);
    AddedDescribes(p, Truth(rest), Truth(rest + [u]), f, u, m, min);
    if !(u.item in p || |p| < m) { assert EntryOk(p[min], Truth(rest)(min), f); }
  }

  function Count(s: Summary, x: Bytes): int { if x in s then s[x].count else 0 }

  /** The Space-Saving guarantees, for every stream of positive updates into m slots: the counts
      add up to the stream's total N; a tracked count brackets the true one within its recorded
      error, which is at most N / m; and whatever occurs more than N / m times is tracked. */
  lemma SpaceSavingBounds(s: Summary, stream: seq<Update>, m: nat, x: Bytes)
    requires Reached(s, stream, m) && Positive(stream)
    ensures |s| <= m && Sum(s) == Total(stream)
    ensures x in s ==> s[x].count - s[x].err <= True(stream, x) <= s[x].count
    ensures x in s ==> 0 <= s[x].err && m * s[x].err <= Total(stream)
    ensures x !in s ==> 0 <= True(stream, x) && m * True(stream, x) <= Total(stream)
    ensures m * True(stream, x) > Total(stream) ==> x in s
  {
    var f := ReachedDescribes(s, stream, m);
    TotalNonNegative(stream);
    assert Truth(stream)(x) == True(stream, x);
    FloorBound(s, Truth(stream), m, f);
    if x in s { Scaled(m, s[x].err, f); } else { Scaled(m, True(stream, x), f); }
  }

  lemma FloorBound(s: Summary, t: Bytes -> int, m: nat, f: int)
    requires Describes(s, t, f) && |s| <= m && (|s| < m ==> f == 0) && 0 <= f
    ensures |s| == m || Sum(s) >= 0 ==> m * f <= Sum(s)
  {
    forall y | y in s ensures f <= s[y].count { assert EntryOk(s[y], t(y), f); }
    if |s| == m { SumBound(s, f); }
  }

  lemma {:induction false} TotalNonNegative(stream: seq<Update>)
    requires Positive(stream)
    ensures Total(stream) >= 0
    decreases |stream|
  {
    if stream != [] { TotalNonNegative(stream[..|stream| - 1]); }
  }

  // ---- merging replicas ----

  /** A replica: who it is, its summary and (history) the stream behind it. */
  datatype Replica = Replica(id: Bytes, summary: Summary, stream: seq<Update>)

  ghost predicate AllReached(rs: seq<Replica>, m: nat) {
    forall i :: 0 <= i < |rs| ==> Reached(rs[i].summary, rs[i].stream, m) && Positive(rs[i].stream)
  }

  function Merged(rs: seq<Replica>, x: Bytes): int {
    if rs == [] then 0 else Count(rs[0].summary, x) + Merged(rs[1..], x)
  }

  function MergedTrue(rs: seq<Replica>, x: Bytes): int {
    if rs == [] then 0 else True(rs[0].stream, x) + MergedTrue(rs[1..], x)
  }

  function MergedTotal(rs: seq<Replica>): int {
    if rs == [] then 0 else Total(rs[0].stream) + MergedTotal(rs[1..])
  }

  /** For any number of replicas, the merged count of any item, tracked anywhere or not, is within
      (sum of all N) / m of its true total. */
  lemma {:induction false} MergedError(rs: seq<Replica>, m: nat, x: Bytes)
    requires AllReached(rs, m)
    ensures m * (Merged(rs, x) - MergedTrue(rs, x)) <= MergedTotal(rs)
    ensures m * (MergedTrue(rs, x) - Merged(rs, x)) <= MergedTotal(rs)
    decreases |rs|
  {
    if rs != [] {
      MergedError(rs[1..], m, x);
      ReplicaError(rs[0], m, x);
      var a, b := Count(rs[0].summary, x) - True(rs[0].stream, x), Merged(rs[1..], x) - MergedTrue(rs[1..], x);
      assert m * (a + b) == m * a + m * b;
      assert m * (-a - b) == m * (-a) + m * (-b);
    }
  }

  lemma ReplicaError(r: Replica, m: nat, x: Bytes)
    requires Reached(r.summary, r.stream, m) && Positive(r.stream)
    ensures m * (Count(r.summary, x) - True(r.stream, x)) <= Total(r.stream)
    ensures m * (True(r.stream, x) - Count(r.summary, x)) <= Total(r.stream)
  {
    SpaceSavingBounds(r.summary, r.stream, m, x);
    TotalNonNegative(r.stream);
    if x in r.summary {
      Scaled(m, r.summary[x].count - True(r.stream, x), r.summary[x].err);
    } else {
      Scaled(m, True(r.stream, x), True(r.stream, x));
    }
  }

  lemma Scaled(m: nat, d: int, e: int)
    requires 0 <= d <= e
    ensures m * d <= m * e && m * (-d) <= 0
  {}

  // ---- the merged view ----

  predicate Distinct(rs: seq<Replica>) {
    forall i, j :: 0 <= i < j < |rs| ==> rs[i].id != rs[j].id
  }

  function Get(m: map<Bytes, int>, x: Bytes): int { if x in m then m[x] else 0 }

  /** topkView.count */
  function ViewCount(others: map<Bytes, int>, own: Summary, x: Bytes): int { Get(others, x) + Count(own, x) }

  /** Adds one summary's counts to the running totals, in any order. */
  method Fold(others: map<Bytes, int>, s: Summary) returns (out: map<Bytes, int>)
    ensures forall x :: Get(out, x) == Get(others, x) + Count(s, x)
  {
    out := others;
    var left := s.Keys;
    while left != {}
      invariant left <= s.Keys
      invariant forall x :: Get(out, x) == Get(others, x) + if x in left then 0 else Count(s, x)
      decreases |left|
    {
      var n :| n in left;
      out := out[n := Get(out, n) + s[n].count];
      left := left - {n};
    }
  }

  /** topkOpen: own summary apart, every other replica's counts summed; together they are the merge,
      whichever replica looks. */
  method Open(rs: seq<Replica>, me: Bytes) returns (others: map<Bytes, int>, own: Summary)
    requires Distinct(rs)
    ensures forall x :: ViewCount(others, own, x) == Merged(rs, x)
  {
    others, own := map[], map[];
    var i := 0;
    while i < |rs|
      invariant 0 <= i <= |rs|
      invariant (forall j :: 0 <= j < i ==> rs[j].id != me) ==> own == map[]
      invariant forall x :: ViewCount(others, own, x) == Merged(rs[..i], x)
    {
      forall x ensures Merged(rs[..i + 1], x) == Merged(rs[..i], x) + Count(rs[i].summary, x) {
        assert rs[..i + 1] == rs[..i] + [rs[i]];
        MergedSnoc(rs[..i], rs[i], x);
      }
      if rs[i].id == me {
        own := rs[i].summary;
      } else {
        others := Fold(others, rs[i].summary);
      }
      i := i + 1;
    }
    assert rs[..|rs|] == rs;
  }

  lemma {:induction false} MergedSnoc(rs: seq<Replica>, r: Replica, x: Bytes)
    ensures Merged(rs + [r], x) == Merged(rs, x) + Count(r.summary, x)
    decreases |rs|
  {
    if rs == [] {
      assert (rs + [r])[1..] == [];
    } else {
      assert (rs + [r])[1..] == rs[1..] + [r];
      MergedSnoc(rs[1..], r, x);
    }
  }

  // ---- the object ----

  lemma {:induction false} ReachedMore(s: Summary, stream: seq<Update>, m: nat, u: Update, s': Summary)
    requires Reached(s, stream, m) && Step(s, u, m, s')
    ensures Reached(s', stream + [u], m)
  {
    var ss :| IsRun(ss, stream, m) && ss[|stream|] == s;
    var tt, more := ss + [s'], stream + [u];
    forall i | 0 <= i < |more| ensures Step(tt[i], more[i], m, tt[i + 1]) {
      if i < |stream| { assert Step(ss[i], stream[i], m, ss[i + 1]); }
    }
    assert IsRun(tt, more, m);
  }

  datatype Error = NotPositive

  /** This replica's summary, as TOPK.ADD works on it. */
  class SummaryObject {
    var entries: Summary

    constructor ()
      ensures entries == map[]
    {
      entries := map[];
    }

    /** summary.add */
    method Add(item: Bytes, inc: int, slots: nat)
      requires slots > 0
      modifies this
      ensures Step(old(entries), Update(item, inc), slots, entries)
    {
      ghost var min := item;
      if item in entries {
        entries := entries[item := entries[item].(count := entries[item].count + inc)];
      } else if |entries| < slots {
        entries := entries[item := Entry(inc, 0)];
      } else {
        assert |entries| > 0 && entries != map[];
        var best := FindMin(entries);
        min := best;
        var c := entries[best].count;
        entries := (entries - {best})[item := Entry(c + inc, c)];
      }
      assert entries == Added(old(entries), item, inc, slots, min);
    }

    /** TOPK.ADD: a non-positive increment fails the whole command and nothing is saved. */
    method AddAll(items: seq<Update>, slots: nat) returns (r: Result<(), Error>)
      requires slots > 0
      modifies this
      ensures r.Ok? <==> Positive(items)
      ensures r.Err? ==> entries == old(entries)
      ensures r.Ok? ==>
        forall stream :: Reached(old(entries), stream, slots) ==> Reached(entries, stream + items, slots)
    {
      var i := 0;
      var saved := entries;
      assert forall stream: seq<Update> :: stream + items[..0] == stream;
      while i < |items|
        invariant 0 <= i <= |items| && saved == old(entries) && Positive(items[..i])
        invariant forall stream :: Reached(saved, stream, slots) ==> Reached(entries, stream + items[..i], slots)
      {
        if items[i].inc <= 0 {
          entries := saved;
          return Err(NotPositive);
        }
        ghost var before := entries;
        Add(items[i].item, items[i].inc, slots);
        forall stream | Reached(saved, stream, slots) ensures Reached(entries, stream + items[..i + 1], slots) {
          ReachedMore(before, stream + items[..i], slots, items[i], entries);
          assert stream + items[..i] + [items[i]] == stream + items[..i + 1];
        }
        i := i + 1;
      }
      assert items[..|items|] == items;
      return Ok(());
    }
  }
}
