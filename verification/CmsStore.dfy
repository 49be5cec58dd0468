/** The CMS commands over a node's store. */
module CmsStore {
  import opened Prelude
  import opened ByteStrings
  import opened Cms

  datatype Error = NotFound | NotPositive | Overflow | DimensionsDiffer

  /** One item's increments, row by row, until a cell would overflow. */
  method IncrItem(h: Hash, s: Sketch, me: nat, item: Bytes, inc: int) returns (comp: Comp, k: nat, est: int)
    requires Valid(s) && me < |s.comp| && inc > 0
    ensures k <= s.depth && comp == AddRows(h, s.comp, s.width, s.depth, me, item, inc, k)
    ensures forall row :: 0 <= row < k ==> HasRoom(h, s, item, inc, row)
    ensures k < s.depth ==> !HasRoom(h, s, item, inc, k)
    ensures k == s.depth ==> est == Estimate(h, s.(comp := comp), item, s.depth)
  {
    comp, k, est := s.comp, 0, MAX;
    var cells := Cells(h, s.width, s.depth, item);
    while k < s.depth
      invariant 0 <= k <= s.depth && comp == AddRows(h, s.comp, s.width, s.depth, me, item, inc, k)
      invariant est == Estimate(h, s.(comp := comp), item, k)
      invariant forall row :: 0 <= row < k ==> HasRoom(h, s, item, inc, row)
    {
      var c := cells[k];
      var sum, own := CellOf(comp, me, c);
      RowStep(h, s, me, item, inc, k, comp, c, sum);
      if Wrap(sum) > MAX - inc { return; }
      comp := comp[me := comp[me][c := own + inc]];
      est := if Wrap(sum) + inc < est then Wrap(sum) + inc else est;
      k := k + 1;
    }
  }

  /** Incrementing row k leaves the cells of the first k rows as they were. */
  lemma EstimateKept(h: Hash, s: Sketch, me: nat, item: Bytes, inc: int, k: nat)
    requires Valid(s) && me < |s.comp| && k < s.depth
    ensures Estimate(h, s.(comp := AddRows(h, s.comp, s.width, s.depth, me, item, inc, k)), item, k) ==
      Estimate(h, s.(comp := AddRows(h, s.comp, s.width, s.depth, me, item, inc, k + 1)), item, k)
  {
    var a := s.(comp := AddRows(h, s.comp, s.width, s.depth, me, item, inc, k));
    var b := s.(comp := AddRows(h, s.comp, s.width, s.depth, me, item, inc, k + 1));
    forall row | 0 <= row < k ensures SameAt(a, b, Cell(h, s.width, item, row)) {
      CellInRow(h, s.width, item, row, s.depth, 0);
      AddRowsCell(h, s.comp, s.width, s.depth, me, item, inc, k, item, row);
      AddRowsCell(h, s.comp, s.width, s.depth, me, item, inc, k + 1, item, row);
    }
    EstimateEqual(h, a, b, item, k);
  }

  /** Counting row k: whether it has room does not depend on the rows before it, and the estimate takes in the
      new value. */
  lemma RowStep(h: Hash, s: Sketch, me: nat, item: Bytes, inc: int, k: nat, comp: Comp, c: nat, sum: int)
    requires Valid(s) && me < |s.comp| && k < s.depth
    requires comp == AddRows(h, s.comp, s.width, s.depth, me, item, inc, k)
    requires c == Cell(h, s.width, item, k) < s.depth * s.width && sum == CellSum(comp, |comp|, c)
    ensures HasRoom(h, s, item, inc, k) <==> Wrap(sum) <= MAX - inc
    ensures
      var e, b := Estimate(h, s.(comp := comp), item, k), comp[me := comp[me][c := comp[me][c] + inc]];
      && b == AddRows(h, s.comp, s.width, s.depth, me, item, inc, k + 1)
      && (inc > 0 && Wrap(sum) <= MAX - inc ==>
            Estimate(h, s.(comp := b), item, k + 1) == if Wrap(sum) + inc < e then Wrap(sum) + inc else e)
  {
    EstimateKept(h, s, me, item, inc, k);
    AddRowsCell(h, s.comp, s.width, s.depth, me, item, inc, k, item, k);
    AddRowsCell(h, s.comp, s.width, s.depth, me, item, inc, k + 1, item, k);
    if inc > 0 && Wrap(sum) <= MAX - inc { WrapPlus(sum, inc); }
  }

  predicate SameAt(a: Sketch, b: Sketch, c: nat)
    requires Valid(a) && Valid(b) && a.width == b.width && a.depth == b.depth
  {
    c < a.depth * a.width ==> Value(a, c) == Value(b, c)
  }

  lemma {:induction false} EstimateEqual(h: Hash, a: Sketch, b: Sketch, item: Bytes, k: nat)
    requires Valid(a) && Valid(b) && a.width == b.width && a.depth == b.depth && k <= a.depth
    requires forall row :: 0 <= row < k ==> SameAt(a, b, Cell(h, a.width, item, row))
    ensures Estimate(h, a, item, k) == Estimate(h, b, item, k)
  {
    if k > 0 {
      EstimateEqual(h, a, b, item, k - 1);
      CellInRow(h, a.width, item, k - 1, a.depth, 0);
    }
  }

  /** Success: every item counted in all its rows and in the total, and the new estimates returned. */
  ghost predicate Counted(h: Hash, s: Sketch, me: nat, items: seq<Bytes>, incs: seq<int>, s': Sketch, out: seq<int>)
    requires Valid(s) && me < |s.comp| && |items| == |incs|
  {
    && var n := |items|;
    && s' == s.(comp := Applied(h, s, me, items, incs, n), tot := s.tot[me := s.tot[me] + Sum(incs, 0, n)])
    && |out| == n
    && forall j :: 0 <= j < n ==> out[j] == EstimateAt(h, s, me, items, incs, j)
  }

  /** The estimate of item j just after it is counted. */
  ghost function EstimateAt(h: Hash, s: Sketch, me: nat, items: seq<Bytes>, incs: seq<int>, j: nat): int
    requires Valid(s) && me < |s.comp| && j < |items| == |incs|
  {
    Estimate(h, s.(comp := Applied(h, s, me, items, incs, j + 1)), items[j], s.depth)
  }

  /** Failure: row k of item i is the first refused, and what came before it stays written, outside the total. */
  ghost predicate Stopped(h: Hash, s: Sketch, me: nat, items: seq<Bytes>, incs: seq<int>, s': Sketch, i: nat, k: nat,
                          e: Error)
    requires Valid(s) && me < |s.comp| && |items| == |incs|
  {
    FirstRefusal(h, s, me, items, incs, i, k) && e == (if incs[i] <= 0 then NotPositive else Overflow) &&
    s' == s.(comp := Failed(h, s, me, items, incs, i, k))
  }

  /** What a call may do to the sketch. */
  ghost predicate IsOutcome(h: Hash, s: Sketch, me: nat, items: seq<Bytes>, incs: seq<int>, s': Sketch,
                            r: Result<seq<int>, Error>)
    requires Valid(s) && me < |s.comp| && |items| == |incs|
  {
    (r.Ok? <==> Countable(h, s, me, items, incs)) &&
    match r
    case Ok(out) => Counted(h, s, me, items, incs, s', out)
    case Err(e) => exists i, k :: Stopped(h, s, me, items, incs, s', i, k, e)
  }

  /** A whole call keeps every row equal to the count exactly when all of it can be counted or its very first
      cell is refused. */
  lemma IncrBalanceIff(h: Hash, s: Sketch, me: nat, items: seq<Bytes>, incs: seq<int>, s': Sketch,
                       r: Result<seq<int>, Error>)
    requires Valid(s) && Balanced(s) && me < |s.comp| && |items| == |incs|
    requires IsOutcome(h, s, me, items, incs, s', r)
    ensures Valid(s') && (Balanced(s') <==> Countable(h, s, me, items, incs) || RefusedAtOnce(h, s, items, incs))
  {
    if r.Ok? {
      IncrKeepsBalance(h, s, me, items, incs);
    } else {
      var i, k :| Stopped(h, s, me, items, incs, s', i, k, r.error);
      RefusalNotCountable(h, s, me, items, incs, i, k);
      RefusedIncrBalanceIff(h, s, me, items, incs, i, k);
    }
  }

  /** One item counted and then a zero increment: the cell is kept and the count is not. */
  lemma PartialIncrUnbalances(h: Hash, item: Bytes, s': Sketch, r: Result<seq<int>, Error>)
    requires IsOutcome(h, Sketch(1, 1, [[0]], [0]), 0, [item, item], [1, 0], s', r)
    ensures r.Err? && !Balanced(s')
  {
    var s, items, incs := Sketch(1, 1, [[0]], [0]), [item, item], [1, 0];
    assert !ItemFits(h, s, 0, items, incs, 1);
    assert RowSum(s.comp[0], 1, 1, 0) == s.comp[0][0];
    CellInRow(h, 1, item, 0, 1, 0);
    assert CellSum(s.comp, 0, 0) == 0 && Value(s, 0) == 0;
    IncrBalanceIff(h, s, 0, items, incs, s', r);
  }

  lemma StopsHere(h: Hash, s: Sketch, me: nat, items: seq<Bytes>, incs: seq<int>, s': Sketch, i: nat, k: nat, e: Error)
    requires Valid(s) && me < |s.comp| && |items| == |incs| && Stopped(h, s, me, items, incs, s', i, k, e)
    ensures IsOutcome(h, s, me, items, incs, s', Err(e))
  {
    RefusalNotCountable(h, s, me, items, incs, i, k);
  }

  method IncrAll(h: Hash, s: Sketch, me: nat, items: seq<Bytes>, incs: seq<int>)
    returns (s': Sketch, r: Result<seq<int>, Error>, i: nat, k: nat)
    requires Valid(s) && me < |s.comp| && |items| == |incs|
    ensures Valid(s') && |s'.comp| == |s.comp|
    ensures IsOutcome(h, s, me, items, incs, s', r)
    ensures r.Err? ==> Stopped(h, s, me, items, incs, s', i, k, r.error)
  {
    var out: seq<int> := [];
    var totalOwn := s.tot[me];
    s', i, k := s, 0, 0;
    while i < |items|
      invariant 0 <= i <= |items| && FirstFit(h, s, me, items, incs, i)
      invariant s' == s.(comp := Applied(h, s, me, items, incs, i)) && Valid(s') && |out| == i
      invariant totalOwn == s.tot[me] + Sum(incs, 0, i)
      invariant forall j :: 0 <= j < i ==> out[j] == EstimateAt(h, s, me, items, incs, j)
    {
      if incs[i] <= 0 {
        k := 0;
        StopsHere(h, s, me, items, incs, s', i, k, NotPositive);
        return s', Err(NotPositive), i, k;
      }
      var comp, est;
      comp, k, est := IncrItem(h, s', me, items[i], incs[i]);
      s' := s.(comp := comp);
      if k < s.depth {
        StopsHere(h, s, me, items, incs, s', i, k, Overflow);
        return s', Err(Overflow), i, k;
      }
      assert ItemFits(h, s, me, items, incs, i);
      assert est == EstimateAt(h, s, me, items, incs, i);
      out := out + [est];
      totalOwn := totalOwn + incs[i];
      i := i + 1;
    }
    s' := s'.(tot := s'.tot[me := totalOwn]);
    return s', Ok(out), i, k;
  }

  /** cell: the merged value and this replica's component. */
  method CellOf(comp: Comp, me: nat, c: nat) returns (sum: int, own: int)
    requires me < |comp| && forall r :: 0 <= r < |comp| ==> c < |comp[r]|
    ensures sum == CellSum(comp, |comp|, c) && own == comp[me][c]
  {
    sum, own := 0, 0;
    var r := 0;
    while r < |comp|
      invariant 0 <= r <= |comp| && sum == CellSum(comp, r, c) && (me < r ==> own == comp[me][c])
    {
      sum := sum + comp[r][c];
      if r == me { own := comp[r][c]; }
      r := r + 1;
    }
  }

  method TotalOf(tot: seq<int>) returns (sum: int)
    ensures sum == Sum(tot, 0, |tot|)
  {
    sum := 0;
    var r := 0;
    while r < |tot|
      invariant 0 <= r <= |tot| && sum == Sum(tot, 0, r)
    {
      sum := sum + tot[r];
      r := r + 1;
    }
  }

  // ---- merging ----

  /** The weighted sum of the first n values. */
  function Weighted(vals: seq<int>, weights: seq<int>, n: nat): int
    requires n <= |vals| && n <= |weights|
  {
    if n == 0 then 0 else Weighted(vals, weights, n - 1) + vals[n - 1] * weights[n - 1]
  }

  predicate SameDims(srcs: seq<Sketch>, d: Sketch) {
    forall i :: 0 <= i < |srcs| ==> Valid(srcs[i]) && srcs[i].width == d.width && srcs[i].depth == d.depth
  }

  ghost function Values(srcs: seq<Sketch>, d: Sketch, c: nat): seq<int>
    requires SameDims(srcs, d) && c < d.depth * d.width
  {
    seq(|srcs|, i requires 0 <= i < |srcs| => Value(srcs[i], c))
  }

  ghost function Totals(srcs: seq<Sketch>): seq<int> {
    seq(|srcs|, i requires 0 <= i < |srcs| => Total(srcs[i]))
  }

  /** The destination is the weighted sum of the sources, cell by cell and in total, by a change to this
      replica's own components only. */
  ghost predicate IsMerge(srcs: seq<Sketch>, weights: seq<int>, me: nat, d: Sketch, d': Sketch)
    requires |srcs| == |weights| && SameDims(srcs, d) && Valid(d)
  {
    Valid(d') && d'.width == d.width && d'.depth == d.depth && |d'.comp| == |d.comp| &&
    (forall r :: 0 <= r < |d.comp| && r != me ==> d'.comp[r] == d.comp[r] && d'.tot[r] == d.tot[r]) &&
    (forall c :: 0 <= c < d.depth * d.width ==> Value(d', c) == Weighted(Values(srcs, d, c), weights, |srcs|)) &&
    Total(d') == Weighted(Totals(srcs), weights, |srcs|)
  }

  /** target[c] += value * weight for every cell of one source. */
  method AddScaled(target: seq<int>, s: Sketch, w: int) returns (out: seq<int>)
    requires Valid(s) && |target| == s.depth * s.width
    ensures |out| == |target| && forall c :: 0 <= c < |target| ==> out[c] == target[c] + Value(s, c) * w
  {
    out := [];
    while |out| < |target|
      invariant |out| <= |target|
      invariant forall c :: 0 <= c < |out| ==> out[c] == target[c] + Value(s, c) * w
    {
      var c := |out|;
      var sum := 0;
      if |s.comp| > 0 {
        var own;
        sum, own := CellOf(s.comp, 0, c);
      }
      out := out + [target[c] + sum * w];
    }
  }

  /** own = target - others, for every cell. */
  method Replace(d: Sketch, me: nat, target: seq<int>) returns (own': seq<int>)
    requires Valid(d) && me < |d.comp| && |target| == d.depth * d.width
    ensures |own'| == |target|
    ensures forall c :: 0 <= c < |target| ==> own'[c] == target[c] - (Value(d, c) - d.comp[me][c])
  {
    own' := [];
    while |own'| < |target|
      invariant |own'| <= |target|
      invariant forall c :: 0 <= c < |own'| ==> own'[c] == target[c] - (Value(d, c) - d.comp[me][c])
    {
      var sum, own := CellOf(d.comp, me, |own'|);
      var others := sum - own;
      own' := own' + [target[|own'|] - others];
    }
  }

  lemma ReplaceGivesTarget(d: Sketch, me: nat, target: seq<int>, own': seq<int>, total: int)
    requires Valid(d) && me < |d.comp| && |target| == |own'| == d.depth * d.width
    requires forall c :: 0 <= c < |target| ==> own'[c] == target[c] - (Value(d, c) - d.comp[me][c])
    ensures var d' := d.(comp := d.comp[me := own'], tot := d.tot[me := total - (Total(d) - d.tot[me])]);
      Valid(d') && Total(d') == total && forall c :: 0 <= c < |target| ==> Value(d', c) == target[c]
  {
    forall c | 0 <= c < |target| ensures CellSum(d.comp[me := own'], |d.comp|, c) == target[c] {
      CellSumSet(d.comp, |d.comp|, me, own', c);
    }
    SumSet(d.tot, 0, |d.tot|, me, total - (Total(d) - d.tot[me]));
  }

  /** Merging in-sync balanced sketches gives a balanced one. */
  lemma MergeKeepsBalance(srcs: seq<Sketch>, weights: seq<int>, me: nat, d: Sketch, d': Sketch, target: seq<int>)
    requires |srcs| == |weights| && SameDims(srcs, d) && Valid(d) && Balanced(d) && me < |d.comp|
    requires forall i :: 0 <= i < |srcs| ==> Balanced(srcs[i])
    requires IsMerge(srcs, weights, me, d, d')
    requires |target| == d.depth * d.width && forall c :: 0 <= c < |target| ==> target[c] == Value(d', c)
    ensures Balanced(d')
  {
    forall r, row | 0 <= r < |d'.comp| && 0 <= row < d'.depth
      ensures RowSum(d'.comp[r], d'.width, d'.depth, row) == d'.tot[r]
    {
      if r != me {
        assert RowSum(d.comp[r], d.width, d.depth, row) == d.tot[r];
      } else {
        TargetRow(srcs, weights, d, target, row);
        RowBound(d.width, row, d.depth);
        OwnRow(d, d', me, target, row);
      }
    }
  }

  /** A row of the target sums to the weighted total. */
  lemma TargetRow(srcs: seq<Sketch>, weights: seq<int>, d: Sketch, target: seq<int>, row: nat)
    requires |srcs| == |weights| && SameDims(srcs, d) && row < d.depth
    requires forall i :: 0 <= i < |srcs| ==> Balanced(srcs[i])
    requires |target| == d.depth * d.width
    requires forall c :: 0 <= c < |target| ==> target[c] == Weighted(Values(srcs, d, c), weights, |srcs|)
    ensures RowSum(target, d.width, d.depth, row) == Weighted(Totals(srcs), weights, |srcs|)
  {
    RowBound(d.width, row, d.depth);
    WeightedRow(srcs, weights, d, target, row, |srcs|);
  }

  lemma {:induction false} WeightedRow(srcs: seq<Sketch>, weights: seq<int>, d: Sketch, target: seq<int>, row: nat,
                                       n: nat)
    requires n <= |srcs| == |weights| && SameDims(srcs, d) && row < d.depth
    requires forall i :: 0 <= i < |srcs| ==> Balanced(srcs[i])
    requires |target| == d.depth * d.width
    requires forall c :: 0 <= c < |target| ==> target[c] == Weighted(Values(srcs, d, c), weights, n)
    ensures RowSum(target, d.width, d.depth, row) == Weighted(Totals(srcs), weights, n)
    decreases n
  {
    RowBound(d.width, row, d.depth);
    var lo, hi := row * d.width, row * d.width + d.width;
    if n == 0 {
      ZeroRow(target, lo, hi);
    } else {
      var s := srcs[n - 1];
      var m := seq(|target|, c requires 0 <= c < |target| => Value(s, c));
      var rest := seq(|target|, c requires 0 <= c < |target| => Weighted(Values(srcs, d, c), weights, n - 1));
      WeightedRow(srcs, weights, d, rest, row, n - 1);
      RowsSumToTotal(s, m, row);
      ScaledRow(target, rest, m, weights[n - 1], lo, hi);
    }
  }

  lemma {:induction false} ZeroRow(a: seq<int>, lo: nat, hi: nat)
    requires lo <= hi <= |a| && forall c :: 0 <= c < |a| ==> a[c] == 0
    ensures Sum(a, lo, hi) == 0
  {
    if lo < hi { ZeroRow(a, lo, hi - 1); }
  }

  lemma {:induction false} ScaledRow(a: seq<int>, b: seq<int>, m: seq<int>, w: int, lo: nat, hi: nat)
    requires lo <= hi <= |a| == |b| == |m| && forall c :: 0 <= c < |a| ==> a[c] == b[c] + m[c] * w
    ensures Sum(a, lo, hi) == Sum(b, lo, hi) + Sum(m, lo, hi) * w
  {
    if lo < hi {
      ScaledRow(a, b, m, w, lo, hi - 1);
      var x, y := Sum(m, lo, hi - 1), m[hi - 1];
      assert (x + y) * w == x * w + y * w;
    }
  }

  /** This replica's new row: the target's, less what the others hold. */
  lemma OwnRow(d: Sketch, d': Sketch, me: nat, target: seq<int>, row: nat)
    requires Valid(d) && Balanced(d) && Valid(d') && me < |d.comp| == |d'.comp| && row < d.depth
    requires d'.width == d.width && d'.depth == d.depth
    requires forall r :: 0 <= r < |d.comp| && r != me ==> d'.comp[r] == d.comp[r] && d'.tot[r] == d.tot[r]
    requires |target| == d.depth * d.width && forall c :: 0 <= c < |target| ==> target[c] == Value(d', c)
    requires RowSum(target, d.width, d.depth, row) == Total(d')
    ensures RowSum(d'.comp[me], d.width, d.depth, row) == d'.tot[me]
  {
    RowBound(d.width, row, d.depth);
    var lo, hi := row * d.width, row * d.width + d.width;
    var merged := seq(|target|, c requires 0 <= c < |target| => Value(d, c));
    RowsSumToTotal(d, merged, row);
    assert RowSum(d.comp[me], d.width, d.depth, row) == d.tot[me];
    assert d'.comp == d.comp[me := d'.comp[me]] && d'.tot == d.tot[me := d'.tot[me]];
    SumSet(d.tot, 0, |d.tot|, me, d'.tot[me]);
    forall c | 0 <= c < |target| ensures target[c] == merged[c] + d'.comp[me][c] - d.comp[me][c] {
      CellSumSet(d.comp, |d.comp|, me, d'.comp[me], c);
    }
    SwapRow(target, merged, d'.comp[me], d.comp[me], lo, hi);
  }

  lemma {:induction false} SwapRow(t: seq<int>, m: seq<int>, a: seq<int>, b: seq<int>, lo: nat, hi: nat)
    requires lo <= hi <= |t| == |m| == |a| == |b| && forall c :: 0 <= c < |t| ==> t[c] == m[c] + a[c] - b[c]
    ensures Sum(t, lo, hi) == Sum(m, lo, hi) + Sum(a, lo, hi) - Sum(b, lo, hi)
  {
    if lo < hi { SwapRow(t, m, a, b, lo, hi - 1); }
  }

  class Store {
    const h: Hash
    const me: nat
    var keys: map<Bytes, Sketch>

    ghost predicate Sound()
      reads this
    {
      forall k :: k in keys ==> Valid(keys[k]) && me < |keys[k].comp|
    }

    /** CMS.INCRBY. */
    method Incr(key: Bytes, items: seq<Bytes>, incs: seq<int>) returns (r: Result<seq<int>, Error>)
      requires Sound() && |items| == |incs|
      modifies this
      ensures Sound() && keys.Keys == old(keys).Keys
      ensures forall k :: k in keys && k != key ==> keys[k] == old(keys)[k]
      ensures key !in keys ==> r == Err(NotFound)
      ensures key in keys ==> IsOutcome(h, old(keys)[key], me, items, incs, keys[key], r)
    {
      if key !in keys { return Err(NotFound); }
      var s', i, k;
      s', r, i, k := IncrAll(h, keys[key], me, items, incs);
      keys := keys[key := s'];
    }

    /** CMS.QUERY of one item. */
    method Query(key: Bytes, item: Bytes) returns (r: Result<int, Error>)
      requires Sound()
      ensures r == if key in keys then Ok(Answer(h, keys[key], item)) else Err(NotFound)
    {
      if key !in keys { return Err(NotFound); }
      var s := keys[key];
      var est := MAX;
      var cells := Cells(h, s.width, s.depth, item);
      var k := 0;
      while k < s.depth
        invariant 0 <= k <= s.depth && est == Estimate(h, s, item, k)
      {
        var sum, own := CellOf(s.comp, me, cells[k]);
        est := if Wrap(sum) < est then Wrap(sum) else est;
        k := k + 1;
      }
      return Ok(if est > 0 then est else 0);
    }

    ghost predicate AllFound(srcs: seq<Bytes>)
      reads this
    {
      forall i :: 0 <= i < |srcs| ==> srcs[i] in keys
    }

    /** CMS.MERGE: the sources are read before anything is written, so the destination may be one of them. */
    method Merge(dest: Bytes, srcs: seq<Bytes>, weights: seq<int>)
      returns (r: Result<(), Error>, ghost snaps: seq<Sketch>)
      requires Sound() && |srcs| == |weights|
      modifies this
      ensures Sound() && keys.Keys == old(keys).Keys
      ensures forall k :: k in keys && k != dest ==> keys[k] == old(keys)[k]
      ensures r == Err(NotFound) <==> !AllFound(srcs) || dest !in keys
      ensures r != Err(NotFound) ==> |snaps| == |srcs| && forall i :: 0 <= i < |srcs| ==> snaps[i] == old(keys)[srcs[i]]
      ensures r.Err? ==> keys == old(keys)
      ensures r != Err(NotFound) ==> (r.Ok? <==> SameDims(snaps, old(keys)[dest]))
      ensures r.Ok? ==> IsMerge(snaps, weights, me, old(keys)[dest], keys[dest])
    {
      snaps := [];
      var views: seq<Sketch> := [];
      while |views| < |srcs|
        invariant |views| <= |srcs| && forall i :: 0 <= i < |views| ==> srcs[i] in keys && views[i] == keys[srcs[i]]
      {
        if srcs[|views|] !in keys { return Err(NotFound), []; }
        views := views + [keys[srcs[|views|]]];
      }
      if dest !in keys { return Err(NotFound), []; }
      snaps := views;
      var d := keys[dest];
      var ok, target, total := Target(views, weights, d);
      if !ok { return Err(DimensionsDiffer), snaps; }
      var own' := Replace(d, me, target);
      var tsum := TotalOf(d.tot);
      ReplaceGivesTarget(d, me, target, own', total);
      keys := keys[dest := d.(comp := d.comp[me := own'], tot := d.tot[me := total - (tsum - d.tot[me])])];
      return Ok(()), snaps;
    }
  }

  method Target(views: seq<Sketch>, weights: seq<int>, d: Sketch) returns (ok: bool, target: seq<int>, total: int)
    requires Valid(d) && |views| == |weights| && forall i :: 0 <= i < |views| ==> Valid(views[i])
    ensures ok <==> SameDims(views, d)
    ensures ok ==> |target| == d.depth * d.width && total == Weighted(Totals(views), weights, |views|)
    ensures ok ==> forall c :: 0 <= c < |target| ==> target[c] == Weighted(Values(views, d, c), weights, |views|)
  {
    target, total := seq(d.depth * d.width, c => 0), 0;
    var i := 0;
    while i < |views|
      invariant 0 <= i <= |views| && SameDims(views[..i], d) && |target| == d.depth * d.width
      invariant total == WeightedTotals(views, weights, i)
      invariant forall c :: 0 <= c < |target| ==> target[c] == WeightedCells(views, weights, d, i, c)
    {
      var v := views[i];
      if v.width != d.width || v.depth != d.depth { return false, [], 0; }
      target := AddScaled(target, v, weights[i]);
      var sum := TotalOf(v.tot);
      total := total + sum * weights[i];
      i := i + 1;
    }
    ok := true;
    assert SameDims(views, d) by { assert views[..|views|] == views; }
    WeightedIsTotals(views, weights, i);
    forall c | 0 <= c < |target| ensures target[c] == Weighted(Values(views, d, c), weights, |views|) {
      WeightedIsCells(views, weights, d, i, c);
    }
  }

  /** The sums as the loop accumulates them. */
  ghost function WeightedTotals(views: seq<Sketch>, weights: seq<int>, n: nat): int
    requires n <= |views| == |weights|
  {
    if n == 0 then 0 else WeightedTotals(views, weights, n - 1) + Total(views[n - 1]) * weights[n - 1]
  }

  ghost function WeightedCells(views: seq<Sketch>, weights: seq<int>, d: Sketch, n: nat, c: nat): int
    requires n <= |views| == |weights| && SameDims(views[..n], d) && c < d.depth * d.width
  {
    if n == 0 then 0
    else
      assert views[..n][n - 1] == views[n - 1] && SameDims(views[..n - 1], d) by {
        assert forall i :: 0 <= i < n - 1 ==> views[..n - 1][i] == views[..n][i];
      }
      WeightedCells(views, weights, d, n - 1, c) + Value(views[n - 1], c) * weights[n - 1]
  }

  lemma {:induction false} WeightedIsTotals(views: seq<Sketch>, weights: seq<int>, n: nat)
    requires n <= |views| == |weights|
    ensures WeightedTotals(views, weights, n) == Weighted(Totals(views), weights, n)
  {
    if n > 0 { WeightedIsTotals(views, weights, n - 1); }
  }

  lemma {:induction false} WeightedIsCells(views: seq<Sketch>, weights: seq<int>, d: Sketch, n: nat, c: nat)
    requires n <= |views| == |weights| && SameDims(views[..n], d) && SameDims(views, d) && c < d.depth * d.width
    ensures WeightedCells(views, weights, d, n, c) == Weighted(Values(views, d, c), weights, n)
  {
    if n > 0 {
      assert SameDims(views[..n - 1], d);
      WeightedIsCells(views, weights, d, n - 1, c);
    }
  }
}
