/** The scalable Bloom filter: per-replica bit chunks and insert counts merged by union and sum, one
    command's cached view of them, and the flush that writes it back. */
module Bloom {
  import opened Prelude
  import opened ByteStrings

  const CHUNK_BITS: nat := 32768
  const MAX_LAYERS: nat := 32

  datatype Layer = Layer(capacity: int, bits: nat, hashes: nat)

  /** The layers' sizes, which follow from the filter's parameters alone, and the two item hashes. */
  datatype Geometry = Geometry(layer: nat -> Option<Layer>, h1: Bytes -> nat, h2: Bytes -> nat)

  /** A layer past an unusable one is unusable, and there are at most MAX_LAYERS. */
  ghost predicate Good(g: Geometry) {
    (forall l: nat :: g.layer(l).Some? ==> l < MAX_LAYERS && g.layer(l).value.bits > 0) &&
    (forall l: nat, k: nat :: l < k && g.layer(k).Some? ==> g.layer(l).Some?)
  }

  function Position(g: Geometry, item: Bytes, bits: nat, j: nat): nat
    requires bits > 0
  {
    (g.h1(item) + j * g.h2(item)) % U64 % bits
  }

  datatype Chunk = Chunk(layer: nat, idx: nat)

  function ChunkOf(l: nat, pos: nat): Chunk { Chunk(l, pos / CHUNK_BITS) }

  /** What one node has stored: bits[r] and counts[r] are replica r's components. A chunk is the set of
      its offsets that are on. */
  datatype View = View(bits: seq<map<Chunk, set<nat>>>, counts: seq<map<nat, int>>)

  predicate Valid(v: View) { |v.bits| == |v.counts| }

  function Bits(m: map<Chunk, set<nat>>, c: Chunk): set<nat> { if c in m then m[c] else {} }

  function Counted(m: map<nat, int>, l: nat): int { if l in m then m[l] else 0 }

  /** The union of the first n replicas' chunks, and the sum of their counts. */
  function Or(bits: seq<map<Chunk, set<nat>>>, n: nat, c: Chunk): set<nat>
    requires n <= |bits|
  {
    if n == 0 then {} else Or(bits, n - 1, c) + Bits(bits[n - 1], c)
  }

  function Count(counts: seq<map<nat, int>>, n: nat, l: nat): int
    requires n <= |counts|
  {
    if n == 0 then 0 else Count(counts, n - 1, l) + Counted(counts[n - 1], l)
  }

  /** How many layers may hold data: one past the highest layer with a count. */
  ghost predicate IsLayers(v: View, k: nat) {
    k >= 1 &&
    (forall r, l :: 0 <= r < |v.counts| && l in v.counts[r] ==> l + 1 <= k) &&
    (k == 1 || exists r :: 0 <= r < |v.counts| && k - 1 in v.counts[r])
  }

  // ---- membership ----

  /** The bits as seen through chunks already cached. */
  function On(cache: map<Chunk, set<nat>>, v: View, c: Chunk): set<nat> {
    if c in cache then cache[c] else Or(v.bits, |v.bits|, c)
  }

  predicate IsOn(cache: map<Chunk, set<nat>>, v: View, l: nat, pos: nat) {
    pos % CHUNK_BITS in On(cache, v, ChunkOf(l, pos))
  }

  predicate LayerHas(g: Geometry, cache: map<Chunk, set<nat>>, v: View, l: nat, item: Bytes) {
    g.layer(l).Some? && g.layer(l).value.bits > 0 &&
    forall j :: 0 <= j < g.layer(l).value.hashes ==> IsOn(cache, v, l, Position(g, item, g.layer(l).value.bits, j))
  }

  predicate Found(g: Geometry, cache: map<Chunk, set<nat>>, v: View, layers: nat, item: Bytes) {
    exists l: nat :: l < layers && LayerHas(g, cache, v, l, item)
  }

  /** What a node with this view answers. */
  ghost predicate Reports(g: Geometry, v: View, item: Bytes) {
    exists k: nat :: IsLayers(v, k) && Found(g, map[], v, k, item)
  }

  /** v has everything w has: bits only ever turn on, and counts are never removed. */
  ghost predicate Contains(v: View, w: View) {
    |v.bits| == |w.bits| && |v.counts| == |w.counts| &&
    (forall r, c :: 0 <= r < |w.bits| ==> Bits(w.bits[r], c) <= Bits(v.bits[r], c)) &&
    (forall r, l :: 0 <= r < |w.counts| && l in w.counts[r] ==> l in v.counts[r])
  }

  lemma {:induction false} OrGrows(v: View, w: View, n: nat, c: Chunk)
    requires Contains(v, w) && n <= |w.bits|
    ensures Or(w.bits, n, c) <= Or(v.bits, n, c)
  {
    if n > 0 { OrGrows(v, w, n - 1, c); }
  }

  lemma {:induction false} HighestExists(s: set<nat>, from: nat) returns (k: nat)
    ensures k >= from && (forall l :: l in s ==> l + 1 <= k) && (k == from || (k > 0 && k - 1 in s))
  {
    k := from;
    if s != {} {
      var l :| l in s;
      k := HighestExists(s - {l}, from);
      assert forall x :: x in s ==> x == l || x in s - {l};
      if l + 1 > k { k := l + 1; }
    }
  }

  lemma {:induction false} LayersExist(v: View, n: nat) returns (k: nat)
    requires n <= |v.counts|
    ensures k >= 1 && forall r, l :: 0 <= r < n && l in v.counts[r] ==> l + 1 <= k
    ensures k == 1 || exists r :: 0 <= r < n && k - 1 in v.counts[r]
  {
    k := 1;
    if n > 0 {
      var below := LayersExist(v, n - 1);
      k := HighestExists(v.counts[n - 1].Keys, below);
      if k == below && k > 1 {
        var r :| 0 <= r < n - 1 && k - 1 in v.counts[r];
      }
    }
  }

  /** No false negatives: an item reported present in a view is reported in every view containing it. */
  lemma NoFalseNegatives(g: Geometry, v: View, w: View, item: Bytes)
    requires Contains(v, w) && Reports(g, w, item)
    ensures Reports(g, v, item)
  {
    var k := LayersExist(v, |v.counts|);
    assert IsLayers(v, k);
    var k': nat :| IsLayers(w, k') && Found(g, map[], w, k', item);
    var l: nat :| l < k' && LayerHas(g, map[], w, l, item);
    assert k' <= k by {
      if k' > 1 { var r :| 0 <= r < |w.counts| && k' - 1 in w.counts[r]; }
    }
    var y := g.layer(l).value;
    forall j | 0 <= j < y.hashes ensures IsOn(map[], v, l, Position(g, item, y.bits, j)) {
      var pos := Position(g, item, y.bits, j);
      assert IsOn(map[], w, l, pos);
      OrGrows(v, w, |w.bits|, ChunkOf(l, pos));
    }
    assert LayerHas(g, map[], v, l, item);
  }

  /** A node whose view only grows, by its own commands and by what it receives, never forgets an item. */
  lemma {:induction false} NeverForgotten(g: Geometry, views: seq<View>, i: nat, j: nat, item: Bytes)
    requires i <= j < |views| && forall n :: 0 <= n < |views| - 1 ==> Contains(views[n + 1], views[n])
    requires Reports(g, views[i], item)
    ensures Reports(g, views[j], item)
  {
    if i < j {
      NeverForgotten(g, views, i, j - 1, item);
      assert Contains(views[j - 1 + 1], views[j - 1]);
      NoFalseNegatives(g, views[j], views[j - 1], item);
    }
  }

  lemma {:induction false} OrSet(bits: seq<map<Chunk, set<nat>>>, me: nat, m: map<Chunk, set<nat>>, n: nat, c: Chunk)
    requires me < |bits| && n <= |bits| && Bits(bits[me], c) <= Bits(m, c)
    ensures Or(bits[me := m], n, c) == if me < n then Or(bits, n, c) + Bits(m, c) else Or(bits, n, c)
  {
    if n > 0 { OrSet(bits, me, m, n - 1, c); }
  }

  lemma {:induction false} OrHas(bits: seq<map<Chunk, set<nat>>>, me: nat, n: nat, c: Chunk)
    requires me < n <= |bits|
    ensures Bits(bits[me], c) <= Or(bits, n, c)
  {
    if me < n - 1 { OrHas(bits, me, n - 1, c); }
  }

  lemma {:induction false} CountSet(counts: seq<map<nat, int>>, me: nat, m: map<nat, int>, n: nat, l: nat)
    requires me < |counts| && n <= |counts|
    ensures Count(counts[me := m], n, l) ==
      Count(counts, n, l) + if me < n then Counted(m, l) - Counted(counts[me], l) else 0
  {
    if n > 0 { CountSet(counts, me, m, n - 1, l); }
  }

  // ---- reading the store ----

  method CountLayers(v: View) returns (layers: nat)
    ensures IsLayers(v, layers)
  {
    layers := 1;
    var r := 0;
    while r < |v.counts|
      invariant 0 <= r <= |v.counts| && layers >= 1
      invariant forall q, l :: 0 <= q < r && l in v.counts[q] ==> l + 1 <= layers
      invariant layers == 1 || exists q :: 0 <= q < |v.counts| && layers - 1 in v.counts[q]
    {
      layers := Highest(v.counts, r, layers);
      r := r + 1;
    }
  }

  method Highest(counts: seq<map<nat, int>>, r: nat, from: nat) returns (layers: nat)
    requires r < |counts|
    ensures layers >= from && forall l :: l in counts[r] ==> l + 1 <= layers
    ensures layers == from || (layers > 0 && layers - 1 in counts[r])
  {
    layers := from;
    var left: set<nat> := counts[r].Keys;
    while left != {}
      invariant layers >= from && (layers == from || (layers > 0 && layers - 1 in counts[r]))
      invariant forall l :: l in left ==> l in counts[r]
      invariant forall l :: l in counts[r] && l !in left ==> l + 1 <= layers
      decreases |left|
    {
      var l: nat :| l in left;
      if l + 1 > layers { layers := l + 1; }
      left := left - {l};
    }
  }

  method ReadChunk(v: View, me: nat, c: Chunk) returns (all: set<nat>, ours: set<nat>)
    requires me < |v.bits|
    ensures all == Or(v.bits, |v.bits|, c) && ours == Bits(v.bits[me], c)
  {
    all, ours := {}, {};
    var r := 0;
    while r < |v.bits|
      invariant 0 <= r <= |v.bits| && all == Or(v.bits, r, c)
      invariant ours == if me < r then Bits(v.bits[me], c) else {}
    {
      if c in v.bits[r] {
        all := all + v.bits[r][c];
        if r == me { ours := v.bits[r][c]; }
      }
      r := r + 1;
    }
  }

  method ReadCount(v: View, me: nat, l: nat) returns (sum: int, ours: int)
    requires me < |v.counts|
    ensures sum == Count(v.counts, |v.counts|, l) && ours == Counted(v.counts[me], l)
  {
    sum, ours := 0, 0;
    var r := 0;
    while r < |v.counts|
      invariant 0 <= r <= |v.counts| && sum == Count(v.counts, r, l)
      invariant ours == if me < r then Counted(v.counts[me], l) else 0
    {
      if l in v.counts[r] {
        sum := sum + v.counts[r][l];
        if r == me { ours := v.counts[r][l]; }
      }
      r := r + 1;
    }
  }

  // ---- the cache's invariants ----

  type Cache = map<Chunk, set<nat>>

  /** Cached chunks: this replica's bits only grow, the merged ones are the store's and ours together, and
      a chunk that is not dirty is as stored. */
  ghost predicate ChunksSound(v: View, me: nat, merged: Cache, own: Cache, dirty: set<Chunk>)
    requires me < |v.bits|
  {
    (forall c :: c in merged <==> c in own) &&
    (forall c :: c in dirty ==> c in own) &&
    (forall c :: c in own ==> ChunkSound(v, me, merged, own, c)) &&
    (forall c :: c in own && c !in dirty ==> own[c] == Bits(v.bits[me], c))
  }

  ghost predicate ChunkSound(v: View, me: nat, merged: Cache, own: Cache, c: Chunk)
    requires me < |v.bits|
  {
    c in own && c in merged && Bits(v.bits[me], c) <= own[c] && merged[c] == Or(v.bits, |v.bits|, c) + own[c]
  }

  /** Cached counts differ from the store's by this replica's new inserts. */
  ghost predicate CountsSound(v: View, me: nat, counts: map<nat, int>, mine: map<nat, int>, ndirty: set<nat>)
    requires me < |v.counts|
  {
    (forall l :: l in ndirty ==> l in counts) &&
    (forall l :: l in counts && l !in ndirty ==> counts[l] == Count(v.counts, |v.counts|, l)) &&
    (forall l :: l in counts ==>
      counts[l] - Count(v.counts, |v.counts|, l) == Counted(mine, l) - Counted(v.counts[me], l))
  }

  ghost predicate LayersSound(v: View, ndirty: set<nat>, layers: nat) {
    layers >= 1 &&
    (forall r, l :: 0 <= r < |v.counts| && l in v.counts[r] ==> l + 1 <= layers) &&
    (forall l :: l in ndirty ==> l + 1 <= layers) &&
    (layers == 1 || layers - 1 in ndirty || exists r :: 0 <= r < |v.counts| && layers - 1 in v.counts[r])
  }

  ghost predicate SameBits(v: View, a: Cache, b: Cache) { forall d :: On(a, v, d) == On(b, v, d) }

  ghost predicate MoreBits(v: View, a: Cache, b: Cache) { forall d :: On(a, v, d) <= On(b, v, d) }

  lemma LoadSound(v: View, me: nat, merged: Cache, own: Cache, dirty: set<Chunk>, c: Chunk)
    requires me < |v.bits| && ChunksSound(v, me, merged, own, dirty) && c !in merged
    ensures var merged', own' := merged[c := Or(v.bits, |v.bits|, c)], own[c := Bits(v.bits[me], c)];
      ChunksSound(v, me, merged', own', dirty) && SameBits(v, merged, merged')
  {
    OrHas(v.bits, me, |v.bits|, c);
    var merged', own' := merged[c := Or(v.bits, |v.bits|, c)], own[c := Bits(v.bits[me], c)];
    forall d | d in own' ensures ChunkSound(v, me, merged', own', d) {
      if d != c { assert ChunkSound(v, me, merged, own, d); }
    }
  }

  lemma SetSound(v: View, me: nat, merged: Cache, own: Cache, dirty: set<Chunk>, c: Chunk, off: nat)
    requires me < |v.bits| && ChunksSound(v, me, merged, own, dirty) && c in merged
    ensures var merged', own' := merged[c := merged[c] + {off}], own[c := own[c] + {off}];
      ChunksSound(v, me, merged', own', dirty + {c}) && MoreBits(v, merged, merged')
  {
    var merged', own' := merged[c := merged[c] + {off}], own[c := own[c] + {off}];
    forall d | d in own' ensures ChunkSound(v, me, merged', own', d) {
      assert ChunkSound(v, me, merged, own, d);
    }
  }

  lemma SameFound(g: Geometry, a: Cache, b: Cache, v: View, layers: nat, item: Bytes)
    requires SameBits(v, a, b)
    ensures Found(g, a, v, layers, item) <==> Found(g, b, v, layers, item)
  {
    forall l: nat ensures LayerHas(g, a, v, l, item) <==> LayerHas(g, b, v, l, item) {
      SameAnswer(g, a, b, v, l, item);
    }
  }

  /** A layer's answer depends only on the bits. */
  lemma SameAnswer(g: Geometry, a: Cache, b: Cache, v: View, l: nat, item: Bytes)
    requires SameBits(v, a, b)
    ensures LayerHas(g, a, v, l, item) <==> LayerHas(g, b, v, l, item)
  {
    if g.layer(l).Some? && g.layer(l).value.bits > 0 {
      var y := g.layer(l).value;
      forall j | 0 <= j < y.hashes
        ensures IsOn(a, v, l, Position(g, item, y.bits, j)) <==> IsOn(b, v, l, Position(g, item, y.bits, j))
      {
        SameOn(a, b, v, l, Position(g, item, y.bits, j));
      }
    }
  }

  lemma SameOn(a: Cache, b: Cache, v: View, l: nat, pos: nat)
    requires SameBits(v, a, b)
    ensures IsOn(a, v, l, pos) <==> IsOn(b, v, l, pos)
  {
    assert On(a, v, ChunkOf(l, pos)) == On(b, v, ChunkOf(l, pos));
  }

  /** The item's first n bits of the layer are on. */
  predicate FirstOn(g: Geometry, cache: Cache, v: View, l: nat, item: Bytes, bits: nat, n: nat)
    requires bits > 0
  {
    forall i :: 0 <= i < n ==> IsOn(cache, v, l, Position(g, item, bits, i))
  }

  /** The next bit is on: so are the first n + 1. */
  lemma OneMore(g: Geometry, a: Cache, v: View, l: nat, item: Bytes, bits: nat, n: nat)
    requires bits > 0 && FirstOn(g, a, v, l, item, bits, n)
    ensures FirstOn(g, a, v, l, item, bits, n + 1) <==> IsOn(a, v, l, Position(g, item, bits, n))
  {}

  /** A layer's insert count as this command sees it. */
  function CountNow(v: View, counts: map<nat, int>, l: nat): int {
    if l in counts then counts[l] else Count(v.counts, |v.counts|, l)
  }

  predicate Full(g: Geometry, v: View, counts: map<nat, int>, l: nat) {
    g.layer(l).Some? ==> CountNow(v, counts, l) >= g.layer(l).value.capacity
  }

  /** Every usable layer is full. */
  ghost predicate AllFull(g: Geometry, v: View, counts: map<nat, int>) { forall l: nat :: Full(g, v, counts, l) }

  ghost predicate SameCounts(v: View, a: map<nat, int>, b: map<nat, int>) {
    forall l: nat :: CountNow(v, a, l) == CountNow(v, b, l)
  }

  lemma SameFull(g: Geometry, v: View, a: map<nat, int>, b: map<nat, int>)
    requires SameCounts(v, a, b) && AllFull(g, v, a)
    ensures AllFull(g, v, b)
  {
    forall l: nat ensures Full(g, v, b, l) { assert Full(g, v, a, l) && CountNow(v, a, l) == CountNow(v, b, l); }
  }

  // ---- one command's cached state ----

  class State {
    const g: Geometry
    const me: nat
    const base: View
    var merged: Cache
    var own: Cache
    var dirty: set<Chunk>
    var counts: map<nat, int>
    var mine: map<nat, int>
    var ndirty: set<nat>
    var layers: nat

    ghost predicate Sound()
      reads this
    {
      && Good(g) && Valid(base) && me < |base.bits|
      && ChunksSound(base, me, merged, own, dirty)
      && CountsSound(base, me, counts, mine, ndirty)
      && LayersSound(base, ndirty, layers)
    }

    constructor (g: Geometry, v: View, me: nat)
      requires Good(g) && Valid(v) && me < |v.bits|
      ensures Sound() && this.g == g && base == v && this.me == me && merged == map[] && IsLayers(v, layers)
    {
      this.g, this.me, base := g, me, v;
      merged, own, dirty := map[], map[], {};
      counts, mine, ndirty := map[], map[], {};
      var k := CountLayers(v);
      layers := k;
    }

    /** chunk: loads a chunk into the cache; no bit changes. */
    method Load(c: Chunk)
      requires Sound()
      modifies this`merged, this`own
      ensures Sound() && c in merged && SameBits(base, old(merged), merged)
    {
      if c in merged { return; }
      LoadSound(base, me, merged, own, dirty, c);
      var all, ours := ReadChunk(base, me, c);
      merged, own := merged[c := all], own[c := ours];
    }

    /** count: the layer's merged insert count, with the inserts cached here. */
    method LayerCount(l: nat) returns (n: int)
      requires Sound()
      modifies this`counts, this`mine
      ensures Sound() && l in counts && n == counts[l]
      ensures n == Count(base.counts, |base.counts|, l) + Counted(mine, l) - Counted(base.counts[me], l)
      ensures n == CountNow(base, old(counts), l) && SameCounts(base, old(counts), counts)
    {
      if l in counts { return counts[l]; }
      var sum, ours := ReadCount(base, me, l);
      mine, counts := mine[l := ours], counts[l := sum];
      return sum;
    }

    /** has: whether some layer has all the item's bits on. */
    method Has(item: Bytes) returns (b: bool)
      requires Sound()
      modifies this`merged, this`own
      ensures Sound() && (b <==> Found(g, merged, base, layers, item)) && SameBits(base, old(merged), merged)
    {
      var l := 0;
      while l < layers
        invariant Sound() && 0 <= l <= layers && SameBits(base, old(merged), merged)
        invariant forall k: nat :: k < l ==> !LayerHas(g, old(merged), base, k, item)
      {
        if g.layer(l).None? {
          assert forall k: nat :: l <= k ==> g.layer(k).None?;
          break;
        }
        var all := LayerCheck(l, item);
        SameAnswer(g, old(merged), merged, base, l, item);
        if all { return true; }
        l := l + 1;
      }
      forall k: nat | k < layers ensures !LayerHas(g, merged, base, k, item) {
        SameAnswer(g, old(merged), merged, base, k, item);
      }
      return false;
    }

    method LayerCheck(l: nat, item: Bytes) returns (all: bool)
      requires Sound() && g.layer(l).Some?
      modifies this`merged, this`own
      ensures Sound() && (all <==> LayerHas(g, merged, base, l, item)) && SameBits(base, old(merged), merged)
    {
      var y := g.layer(l).value;
      var j := 0;
      while j < y.hashes
        invariant Sound() && 0 <= j <= y.hashes && SameBits(base, old(merged), merged)
        invariant FirstOn(g, merged, base, l, item, y.bits, j)
      {
        var pos := Position(g, item, y.bits, j);
        var c := ChunkOf(l, pos);
        ghost var before := merged;
        Load(c);
        OneMore(g, merged, base, l, item, y.bits, j);
        if pos % CHUNK_BITS !in merged[c] {
          assert !IsOn(merged, base, l, pos);
          return false;
        }
        j := j + 1;
      }
      return true;
    }

    /** Turns the item's bits on in layer l. */
    method SetBits(l: nat, item: Bytes)
      requires Sound() && g.layer(l).Some?
      modifies this`merged, this`own, this`dirty
      ensures Sound() && LayerHas(g, merged, base, l, item) && MoreBits(base, old(merged), merged)
    {
      var y := g.layer(l).value;
      var j := 0;
      while j < y.hashes
        invariant Sound() && 0 <= j <= y.hashes && MoreBits(base, old(merged), merged)
        invariant FirstOn(g, merged, base, l, item, y.bits, j)
      {
        var pos := Position(g, item, y.bits, j);
        var c := ChunkOf(l, pos);
        ghost var before := merged;
        Load(c);
        SetSound(base, me, merged, own, dirty, c, pos % CHUNK_BITS);
        merged, own := merged[c := merged[c] + {pos % CHUNK_BITS}], own[c := own[c] + {pos % CHUNK_BITS}];
        dirty := dirty + {c};
        OneMore(g, merged, base, l, item, y.bits, j);
        j := j + 1;
      }
    }

    /** The first layer that is not full, if the geometry has one. */
    method FirstOpen() returns (l: nat, ok: bool)
      requires Sound()
      modifies this`counts, this`mine
      ensures Sound() && SameCounts(base, old(counts), counts)
      ensures ok ==> l in counts && !Full(g, base, old(counts), l)
      ensures ok ==> forall k: nat :: k < l ==> Full(g, base, old(counts), k)
      ensures ok <==> !AllFull(g, base, old(counts))
    {
      l := 0;
      while true
        invariant Sound() && l <= MAX_LAYERS && SameCounts(base, old(counts), counts)
        invariant forall k: nat :: k < l ==> Full(g, base, old(counts), k)
        decreases MAX_LAYERS - l
      {
        if g.layer(l).None? {
          assert forall k: nat :: l <= k ==> g.layer(k).None?;
          return l, false;
        }
        var n := LayerCount(l);
        assert n == CountNow(base, old(counts), l);
        if n < g.layer(l).value.capacity {
          assert !Full(g, base, old(counts), l);
          return l, true;
        }
        l := l + 1;
      }
    }

    /** add: into the first layer that is not full, growing the filter as long as the geometry allows. */
    method Add(item: Bytes) returns (ok: bool)
      requires Sound()
      modifies this
      ensures Sound() && layers >= old(layers)
      ensures ok <==> !AllFull(g, base, old(counts))
      ensures ok ==> Found(g, merged, base, layers, item)
      ensures MoreBits(base, old(merged), merged)
      ensures !ok ==> layers == old(layers) && merged == old(merged) && dirty == old(dirty) && ndirty == old(ndirty)
      ensures !ok ==> AllFull(g, base, counts)
    {
      var l;
      l, ok := FirstOpen();
      if !ok {
        SameFull(g, base, old(counts), counts);
        return;
      }
      SetBits(l, item);
      NoteInsert(l);
      assert LayerHas(g, merged, base, l, item);
    }

    method NoteInsert(l: nat)
      requires Sound() && l in counts
      modifies this`counts, this`mine, this`ndirty, this`layers
      ensures Sound() && layers == if l + 1 > old(layers) then l + 1 else old(layers)
      ensures ndirty == old(ndirty) + {l} && counts == old(counts)[l := old(counts)[l] + 1]
    {
      counts, mine := counts[l := counts[l] + 1], mine[l := Counted(mine, l) + 1];
      ndirty := ndirty + {l};
      if l + 1 > layers { layers := l + 1; }
    }

    /** One item of BF.ADD: looked up, and added if it is not there. */
    method AddIfMissing(item: Bytes) returns (has: bool, ok: bool)
      requires Sound()
      modifies this
      ensures Sound() && layers >= old(layers) && MoreBits(base, old(merged), merged)
      ensures has <==> Found(g, old(merged), base, old(layers), item)
      ensures ok ==> Found(g, merged, base, layers, item)
      ensures ok <==> has || !AllFull(g, base, old(counts))
      ensures !ok ==> AllFull(g, base, counts)
    {
      has := Has(item);
      SameFound(g, old(merged), merged, base, layers, item);
      ok := true;
      if !has { ok := Add(item); }
    }

    /** flush: dirty chunks and counts are put over this replica's stored ones. */
    method Flush() returns (v: View)
      requires Sound()
      ensures Flushed(v)
    {
      var b := PutChunks(base.bits[me], own, dirty);
      var n := PutCounts(base.counts[me], mine, ndirty);
      v := View(base.bits[me := b], base.counts[me := n]);
    }

    ghost predicate Flushed(v: View)
      requires me < |base.bits| && Valid(base)
      reads this
    {
      && |v.bits| == |base.bits| && |v.counts| == |base.counts|
      && v.bits == base.bits[me := v.bits[me]] && v.counts == base.counts[me := v.counts[me]]
      && (forall c :: Bits(v.bits[me], c) == if c in dirty then Bits(own, c) else Bits(base.bits[me], c))
      && (forall l :: l in v.counts[me] <==> l in base.counts[me] || l in ndirty)
      && (forall l :: Counted(v.counts[me], l) == if l in ndirty then Counted(mine, l) else Counted(base.counts[me], l))
    }
  }

  /** After a flush, a fresh view has exactly the cached bits and layers, and all it had before. */
  lemma FlushedIsCached(st: State, v: View)
    requires st.Sound() && st.Flushed(v)
    ensures Contains(v, st.base) && IsLayers(v, st.layers) && Valid(v)
    ensures forall c :: On(map[], v, c) == On(st.merged, st.base, c)
  {
    var base, me := st.base, st.me;
    forall c ensures On(map[], v, c) == On(st.merged, base, c) && Bits(base.bits[me], c) <= Bits(v.bits[me], c) {
      assert c in st.own ==> ChunkSound(base, me, st.merged, st.own, c);
      OrSet(base.bits, me, v.bits[me], |base.bits|, c);
      OrHas(base.bits, me, |base.bits|, c);
    }
    if st.layers - 1 in st.ndirty {
      assert st.layers - 1 in v.counts[me];
    } else if st.layers != 1 {
      var r :| 0 <= r < |base.counts| && st.layers - 1 in base.counts[r];
      assert st.layers - 1 in v.counts[r];
    }
  }

  /** And its counts are the cached ones. */
  lemma FlushedCounts(st: State, v: View, l: nat)
    requires st.Sound() && st.Flushed(v)
    ensures Count(v.counts, |v.counts|, l) == CountNow(st.base, st.counts, l)
  {
    CountSet(st.base.counts, st.me, v.counts[st.me], |st.base.counts|, l);
  }

  lemma FlushedFull(st: State, v: View)
    requires st.Sound() && st.Flushed(v) && AllFull(st.g, st.base, st.counts)
    ensures AllFull(st.g, v, map[])
  {
    forall l: nat ensures Full(st.g, v, map[], l) {
      FlushedCounts(st, v, l);
      assert Full(st.g, st.base, st.counts, l);
    }
  }

  method PutChunks(stored: Cache, own: Cache, dirty: set<Chunk>) returns (b: Cache)
    requires forall c :: c in dirty ==> c in own
    ensures forall c :: Bits(b, c) == if c in dirty then Bits(own, c) else Bits(stored, c)
  {
    b := stored;
    var left := dirty;
    while left != {}
      invariant left <= dirty
      invariant forall c :: Bits(b, c) == if c in dirty && c !in left then Bits(own, c) else Bits(stored, c)
      decreases |left|
    {
      var c: Chunk :| c in left;
      b := b[c := own[c]];
      left := left - {c};
    }
  }

  method PutCounts(stored: map<nat, int>, mine: map<nat, int>, ndirty: set<nat>) returns (n: map<nat, int>)
    ensures forall l :: l in n <==> l in stored || l in ndirty
    ensures forall l :: Counted(n, l) == if l in ndirty then Counted(mine, l) else Counted(stored, l)
  {
    n := stored;
    var left := ndirty;
    while left != {}
      invariant left <= ndirty
      invariant forall l :: l in n <==> l in stored || (l in ndirty && l !in left)
      invariant forall l :: Counted(n, l) == if l in ndirty && l !in left then Counted(mine, l) else Counted(stored, l)
      decreases |left|
    {
      var l: nat :| l in left;
      n := n[l := Counted(mine, l)];
      left := left - {l};
    }
  }

  // ---- BF.ADD ----

  lemma CachedReports(g: Geometry, merged: Cache, base: View, layers: nat, v: View, item: Bytes)
    requires Found(g, merged, base, layers, item) && IsLayers(v, layers)
    requires forall c :: On(map[], v, c) == On(merged, base, c)
    ensures Reports(g, v, item)
  {
    var l: nat :| l < layers && LayerHas(g, merged, base, l, item);
    var y := g.layer(l).value;
    forall j | 0 <= j < y.hashes ensures IsOn(map[], v, l, Position(g, item, y.bits, j)) {
      var pos := Position(g, item, y.bits, j);
      assert IsOn(merged, base, l, pos) && On(map[], v, ChunkOf(l, pos)) == On(merged, base, ChunkOf(l, pos));
    }
    assert LayerHas(g, map[], v, l, item);
  }

  lemma FoundGrows(g: Geometry, a: Cache, b: Cache, base: View, n: nat, m: nat, item: Bytes)
    requires Found(g, a, base, n, item) && n <= m && MoreBits(base, a, b)
    ensures Found(g, b, base, m, item)
  {
    var l: nat :| l < n && LayerHas(g, a, base, l, item);
    var y := g.layer(l).value;
    assert LayerHas(g, b, base, l, item);
  }

  /** The cache and layer count between the items of one command. */
  datatype Moment = Moment(cache: Cache, layers: nat, counts: map<nat, int>)

  /** Each item is flagged new exactly when it was not found just before, some layer had room for a new one, and
      it is found from then on. */
  ghost predicate Flagged(g: Geometry, store: View, items: seq<Bytes>, added: seq<bool>, at: seq<Moment>) {
    |at| == |added| + 1 && |added| <= |items| && at[0].cache == map[] && IsLayers(store, at[0].layers) &&
    (forall i :: 0 <= i < |added| ==> (added[i] <==> !Found(g, at[i].cache, store, at[i].layers, items[i]))) &&
    (forall i :: 0 <= i < |added| && added[i] ==> !AllFull(g, store, at[i].counts)) &&
    (forall i :: 0 <= i < |added| ==>
      MoreBits(store, at[i].cache, at[i + 1].cache) && at[i].layers <= at[i + 1].layers) &&
    (forall i :: 0 <= i < |added| ==> Found(g, at[|added|].cache, store, at[|added|].layers, items[i]))
  }

  /** The command stopped at an item that is not there when no usable layer has room. */
  ghost predicate Stuck(g: Geometry, store: View, counts: map<nat, int>, item: Bytes, m: Moment) {
    !Found(g, m.cache, store, m.layers, item) && AllFull(g, store, counts)
  }

  /** And so the store it leaves has every usable layer at its capacity. */
  ghost predicate Refused(g: Geometry, store: View, store': View, item: Bytes, m: Moment) {
    !Found(g, m.cache, store, m.layers, item) && AllFull(g, store', map[])
  }

  lemma FlagNext(g: Geometry, store: View, items: seq<Bytes>, added: seq<bool>, at: seq<Moment>, has: bool, m: Moment)
    requires Flagged(g, store, items, added, at) && |added| < |items|
    requires var prev, item := at[|added|], items[|added|];
      && MoreBits(store, prev.cache, m.cache) && prev.layers <= m.layers
      && (has <==> Found(g, prev.cache, store, prev.layers, item)) && Found(g, m.cache, store, m.layers, item)
      && (has || !AllFull(g, store, prev.counts))
    ensures Flagged(g, store, items, added + [!has], at + [m])
  {
    var n := |added|;
    forall i | 0 <= i < n ensures Found(g, m.cache, store, m.layers, items[i]) {
      FoundGrows(g, at[n].cache, m.cache, store, at[n].layers, m.layers, items[i]);
    }
  }

  /** BF.ADD, BF.MADD: every item handled before a failure, and all of them on success, is reported
      present by the store the command leaves, which has all it had before. */
  method AddItems(g: Geometry, store: View, me: nat, items: seq<Bytes>)
    returns (store': View, added: seq<bool>, ok: bool, ghost at: seq<Moment>)
    requires Good(g) && Valid(store) && me < |store.bits|
    ensures Valid(store') && Contains(store', store)
    ensures |added| <= |items| && (ok <==> |added| == |items|)
    ensures Flagged(g, store, items, added, at)
    ensures forall i :: 0 <= i < |added| ==> Reports(g, store', items[i])
    ensures !ok ==> Refused(g, store, store', items[|added|], at[|added|])
  {
    var st := new State(g, store, me);
    added, ok := [], true;
    at := [Moment(st.merged, st.layers, st.counts)];
    while |added| < |items| && ok
      invariant fresh(st) && st.Sound() && st.g == g && st.base == store && st.me == me
      invariant Flagged(g, store, items, added, at) && (ok || |added| < |items|)
      invariant ok ==> at[|added|] == Moment(st.merged, st.layers, st.counts)
      invariant !ok ==> Stuck(g, store, st.counts, items[|added|], at[|added|])
      invariant MoreBits(store, at[|added|].cache, st.merged) && at[|added|].layers <= st.layers
      decreases |items| - |added|, ok
    {
      var has;
      has, ok := st.AddIfMissing(items[|added|]);
      if ok {
        FlagNext(g, store, items, added, at, has, Moment(st.merged, st.layers, st.counts));
        added, at := added + [!has], at + [Moment(st.merged, st.layers, st.counts)];
      }
    }
    store' := st.Flush();
    FlushedIsCached(st, store');
    if !ok { FlushedFull(st, store'); }
    forall i | 0 <= i < |added| ensures Reports(g, store', items[i]) {
      FoundGrows(g, at[|added|].cache, st.merged, store, at[|added|].layers, st.layers, items[i]);
      CachedReports(g, st.merged, store, st.layers, store', items[i]);
    }
  }

  /** BF.EXISTS of one item. */
  method Exists(g: Geometry, store: View, me: nat, item: Bytes) returns (b: bool)
    requires Good(g) && Valid(store) && me < |store.bits|
    ensures b <==> Reports(g, store, item)
  {
    var st := new State(g, store, me);
    ghost var k := st.layers;
    b := st.Has(item);
    SameFound(g, map[], st.merged, store, k, item);
  }

}
