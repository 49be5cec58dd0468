/** The count-min sketch as per-replica components: each replica owns one matrix and one count, and a
    cell's value is the sum over replicas. */
module Cms {
  import opened Prelude
  import opened ByteStrings

  const MAX: int := 0x7fff_ffff_ffff_ffff

  /** The two item hashes. */
  datatype Hash = Hash(h1: Bytes -> nat, h2: Bytes -> nat)

  /** comp[r] is replica r's depth * width matrix, row by row; tot[r] its contribution to the count. */
  datatype Sketch = Sketch(width: nat, depth: nat, comp: seq<seq<int>>, tot: seq<int>)

  type Comp = seq<seq<int>>

  predicate Sized(comp: Comp, n: nat) { forall r :: 0 <= r < |comp| ==> |comp[r]| == n }

  predicate Valid(s: Sketch) {
    s.width > 0 && s.depth > 0 && |s.comp| == |s.tot| && Sized(s.comp, s.depth * s.width)
  }

  // ---- cells ----

  /** The cell an item hits in a row. */
  function Cell(h: Hash, width: nat, item: Bytes, row: nat): nat
    requires width > 0
  {
    row * width + (h.h1(item) + row * h.h2(item)) % U64 % width
  }

  lemma RowBound(width: nat, row: nat, depth: nat)
    requires row < depth
    ensures row * width + width <= depth * width
  {
    assert (row + 1) * width <= depth * width;
  }

  /** Each row's cell lies in its own row. */
  lemma CellInRow(h: Hash, width: nat, item: Bytes, row: nat, depth: nat, other: nat)
    requires width > 0 && row < depth
    ensures Cell(h, width, item, row) < depth * width
    ensures (other * width <= Cell(h, width, item, row) < other * width + width) <==> other == row
  {
    RowBound(width, row, depth);
    if other < row { RowBound(width, other, row); } else if row < other { RowBound(width, row, other); }
  }

  method Cells(h: Hash, width: nat, depth: nat, item: Bytes) returns (out: seq<nat>)
    requires width > 0
    ensures |out| == depth && forall r :: 0 <= r < depth ==> out[r] == Cell(h, width, item, r) < depth * width
  {
    out := [];
    while |out| < depth
      invariant |out| <= depth
      invariant forall r :: 0 <= r < |out| ==> out[r] == Cell(h, width, item, r) < depth * width
    {
      CellInRow(h, width, item, |out|, depth, 0);
      out := out + [Cell(h, width, item, |out|)];
    }
  }

  // ---- sums ----

  /** m[lo] + ... + m[hi - 1]. */
  function Sum(m: seq<int>, lo: nat, hi: nat): int
    requires lo <= hi <= |m|
  {
    if lo == hi then 0 else Sum(m, lo, hi - 1) + m[hi - 1]
  }

  /** A cell's value over the first n replicas. */
  function CellSum(comp: Comp, n: nat, c: nat): int
    requires n <= |comp| && forall r :: 0 <= r < |comp| ==> c < |comp[r]|
  {
    if n == 0 then 0 else CellSum(comp, n - 1, c) + comp[n - 1][c]
  }

  function Value(s: Sketch, c: nat): int
    requires Valid(s) && c < s.depth * s.width
  {
    CellSum(s.comp, |s.comp|, c)
  }

  function Total(s: Sketch): int { Sum(s.tot, 0, |s.tot|) }

  lemma {:induction false} SumSet(m: seq<int>, lo: nat, hi: nat, c: nat, v: int)
    requires lo <= hi <= |m| && c < |m|
    ensures Sum(m[c := v], lo, hi) == Sum(m, lo, hi) + if lo <= c < hi then v - m[c] else 0
  {
    if lo < hi { SumSet(m, lo, hi - 1, c, v); }
  }

  lemma {:induction false} CellSumSet(comp: Comp, n: nat, me: nat, m: seq<int>, c: nat)
    requires n <= |comp| && me < |comp| && (forall r :: 0 <= r < |comp| ==> c < |comp[r]|) && c < |m|
    ensures CellSum(comp[me := m], n, c) == CellSum(comp, n, c) + if me < n then m[c] - comp[me][c] else 0
  {
    if n > 0 { CellSumSet(comp, n - 1, me, m, c); }
  }

  /** The merged matrix's sum over a stretch of cells is the sum of the components'. */
  lemma {:induction false} MergedSum(comp: Comp, m: seq<int>, lo: nat, hi: nat, parts: seq<int>)
    requires lo <= hi <= |m| && Sized(comp, |m|) && |parts| == |comp|
    requires forall c :: 0 <= c < |m| ==> m[c] == CellSum(comp, |comp|, c)
    requires forall r :: 0 <= r < |comp| ==> parts[r] == Sum(comp[r], lo, hi)
    ensures Sum(m, lo, hi) == Sum(parts, 0, |parts|)
  {
    var n := |comp|;
    if lo == hi {
      ZeroSum(parts, n);
    } else {
      var parts' := seq(n, r requires 0 <= r < n => Sum(comp[r], lo, hi - 1));
      MergedSum(comp, m, lo, hi - 1, parts');
      SumStep(comp, parts', parts, hi - 1, n);
    }
  }

  lemma {:induction false} ZeroSum(parts: seq<int>, n: nat)
    requires n <= |parts| && forall r :: 0 <= r < n ==> parts[r] == 0
    ensures Sum(parts, 0, n) == 0
  {
    if n > 0 { ZeroSum(parts, n - 1); }
  }

  lemma {:induction false} SumStep(comp: Comp, a: seq<int>, b: seq<int>, c: nat, n: nat)
    requires n <= |comp| == |a| == |b| && forall r :: 0 <= r < |comp| ==> c < |comp[r]|
    requires forall r :: 0 <= r < |comp| ==> b[r] == a[r] + comp[r][c]
    ensures Sum(b, 0, n) == Sum(a, 0, n) + CellSum(comp, n, c)
  {
    if n > 0 { SumStep(comp, a, b, c, n - 1); }
  }

  // ---- conservation ----

  /** Every row of every replica's matrix sums to that replica's count. */
  ghost predicate Balanced(s: Sketch)
    requires Valid(s)
  {
    forall r, row :: 0 <= r < |s.comp| && 0 <= row < s.depth ==> RowSum(s.comp[r], s.width, s.depth, row) == s.tot[r]
  }

  function RowSum(m: seq<int>, width: nat, depth: nat, row: nat): int
    requires row < depth && |m| == depth * width
  {
    RowBound(width, row, depth);
    Sum(m, row * width, row * width + width)
  }

  /** Then each row of the merged matrix sums to the total. */
  lemma RowsSumToTotal(s: Sketch, m: seq<int>, row: nat)
    requires Valid(s) && Balanced(s) && row < s.depth
    requires |m| == s.depth * s.width && forall c :: 0 <= c < |m| ==> m[c] == Value(s, c)
    ensures RowSum(m, s.width, s.depth, row) == Total(s)
  {
    RowBound(s.width, row, s.depth);
    var lo := row * s.width;
    forall r | 0 <= r < |s.comp| ensures s.tot[r] == Sum(s.comp[r], lo, lo + s.width) {
      assert RowSum(s.comp[r], s.width, s.depth, row) == s.tot[r];
    }
    MergedSum(s.comp, m, lo, lo + s.width, s.tot);
  }

  // ---- int64 ----

  /** The int64 an integer stands for. Stored values are kept as unbounded integers: sums and products commute with
      wrapping, so it shows only where a value is compared or returned. */
  function Wrap(v: int): int { (v + MAX + 1) % U64 - MAX - 1 }

  lemma WrapCommutes(a: int, b: int)
    ensures Wrap(a + b) == Wrap(Wrap(a) + Wrap(b)) && Wrap(a * b) == Wrap(Wrap(a) * Wrap(b))
  {
    var i, j := (a + MAX + 1) / U64, (b + MAX + 1) / U64;
    assert Wrap(a) == a - i * U64 && Wrap(b) == b - j * U64;
    Periodic(a + b, -i - j);
    assert Wrap(a) * Wrap(b) == a * b + (i * j * U64 - i * b - a * j) * U64;
    Periodic(a * b, i * j * U64 - i * b - a * j);
  }

  lemma Periodic(v: int, k: int)
    ensures Wrap(v + k * U64) == Wrap(v)
  {}

  lemma WrapId(v: int)
    requires -MAX - 1 <= v <= MAX
    ensures Wrap(v) == v
  {}

  /** Adding within range does not wrap. */
  lemma WrapPlus(v: int, inc: int)
    requires inc > 0 && Wrap(v) <= MAX - inc
    ensures Wrap(v + inc) == Wrap(v) + inc
  {
    var i := (v + MAX + 1) / U64;
    Periodic(Wrap(v) + inc, i);
  }

  // ---- increments ----

  function Bump(comp: Comp, me: nat, c: nat, inc: int): Comp
    requires me < |comp| && c < |comp[me]|
  {
    comp[me := comp[me][c := comp[me][c] + inc]]
  }

  /** The item's cells of the first k rows incremented. */
  function AddRows(h: Hash, comp: Comp, width: nat, depth: nat, me: nat, item: Bytes, inc: int, k: nat): (r: Comp)
    requires width > 0 && Sized(comp, depth * width) && me < |comp| && k <= depth
    ensures |r| == |comp| && Sized(r, depth * width) && forall q :: 0 <= q < |comp| && q != me ==> r[q] == comp[q]
  {
    if k == 0 then comp else
      CellInRow(h, width, item, k - 1, depth, 0);
      Bump(AddRows(h, comp, width, depth, me, item, inc, k - 1), me, Cell(h, width, item, k - 1), inc)
  }

  lemma BumpRowSum(m: seq<int>, width: nat, depth: nat, row: nat, c: nat, inc: int)
    requires row < depth && |m| == depth * width && c < |m|
    ensures RowSum(m[c := m[c] + inc], width, depth, row) ==
      RowSum(m, width, depth, row) + if row * width <= c < row * width + width then inc else 0
  {
    RowBound(width, row, depth);
    SumSet(m, row * width, row * width + width, c, m[c] + inc);
  }

  /** A row's sum grows by the increment once the row is reached. */
  lemma {:induction false} AddRowsSum(h: Hash, comp: Comp, width: nat, depth: nat, me: nat, item: Bytes, inc: int,
                                      k: nat, row: nat)
    requires width > 0 && Sized(comp, depth * width) && me < |comp| && k <= depth && row < depth
    ensures RowSum(AddRows(h, comp, width, depth, me, item, inc, k)[me], width, depth, row) ==
      RowSum(comp[me], width, depth, row) + if row < k then inc else 0
  {
    if k > 0 {
      AddRowsSum(h, comp, width, depth, me, item, inc, k - 1, row);
      CellInRow(h, width, item, k - 1, depth, row);
      BumpRowSum(AddRows(h, comp, width, depth, me, item, inc, k - 1)[me], width, depth, row,
                 Cell(h, width, item, k - 1), inc);
    }
  }

  /** A cell of row `row` grows by the increment exactly when it is the item's and the row is reached. */
  lemma {:induction false} AddRowsCell(h: Hash, comp: Comp, width: nat, depth: nat, me: nat, item: Bytes, inc: int,
                                       k: nat, other: Bytes, row: nat)
    requires width > 0 && Sized(comp, depth * width) && me < |comp| && k <= depth && row < depth
    requires Cell(h, width, other, row) < depth * width
    ensures var c := Cell(h, width, other, row);
      CellSum(AddRows(h, comp, width, depth, me, item, inc, k), |comp|, c) ==
        CellSum(comp, |comp|, c) + if row < k && Cell(h, width, item, row) == c then inc else 0
  {
    if k > 0 {
      AddRowsCell(h, comp, width, depth, me, item, inc, k - 1, other, row);
      CellInRow(h, width, other, row, depth, k - 1);
      CellInRow(h, width, item, k - 1, depth, k - 1);
      var prev := AddRows(h, comp, width, depth, me, item, inc, k - 1);
      var c, d := Cell(h, width, other, row), Cell(h, width, item, k - 1);
      CellSumSet(prev, |prev|, me, prev[me][d := prev[me][d] + inc], c);
    }
  }

  /** The matrices after the first n items of a call. */
  function Applied(h: Hash, s: Sketch, me: nat, items: seq<Bytes>, incs: seq<int>, n: nat): (r: Comp)
    requires Valid(s) && me < |s.comp| && n <= |items| == |incs|
    ensures |r| == |s.comp| && Sized(r, s.depth * s.width)
    ensures forall q :: 0 <= q < |s.comp| && q != me ==> r[q] == s.comp[q]
  {
    if n == 0 then s.comp
    else AddRows(h, Applied(h, s, me, items, incs, n - 1), s.width, s.depth, me, items[n - 1], incs[n - 1], s.depth)
  }

  lemma {:induction false} AppliedSum(h: Hash, s: Sketch, me: nat, items: seq<Bytes>, incs: seq<int>, n: nat, row: nat)
    requires Valid(s) && me < |s.comp| && n <= |items| == |incs| && row < s.depth
    ensures RowSum(Applied(h, s, me, items, incs, n)[me], s.width, s.depth, row) ==
      RowSum(s.comp[me], s.width, s.depth, row) + Sum(incs, 0, n)
  {
    if n > 0 {
      AppliedSum(h, s, me, items, incs, n - 1, row);
      var before := Applied(h, s, me, items, incs, n - 1);
      AddRowsSum(h, before, s.width, s.depth, me, items[n - 1], incs[n - 1], s.depth, row);
    }
  }

  /** A successful call keeps every row of every replica equal to its count. */
  lemma IncrKeepsBalance(h: Hash, s: Sketch, me: nat, items: seq<Bytes>, incs: seq<int>)
    requires Valid(s) && Balanced(s) && me < |s.comp| && |items| == |incs|
    ensures var n := |items|;
      var s' := s.(comp := Applied(h, s, me, items, incs, n), tot := s.tot[me := s.tot[me] + Sum(incs, 0, n)]);
      Valid(s') && Balanced(s')
  {
    var n := |items|;
    var s' := s.(comp := Applied(h, s, me, items, incs, n), tot := s.tot[me := s.tot[me] + Sum(incs, 0, n)]);
    forall r, row | 0 <= r < |s'.comp| && 0 <= row < s'.depth
      ensures RowSum(s'.comp[r], s'.width, s'.depth, row) == s'.tot[r]
    {
      assert RowSum(s.comp[r], s.width, s.depth, row) == s.tot[r];
      AppliedSum(h, s, me, items, incs, n, row);
    }
  }

  /** The item's cell of this row can take the increment. */
  predicate HasRoom(h: Hash, s: Sketch, item: Bytes, inc: int, row: nat)
    requires Valid(s) && row < s.depth
  {
    CellInRow(h, s.width, item, row, s.depth, 0);
    Wrap(Value(s, Cell(h, s.width, item, row))) <= MAX - inc
  }

  /** Item i can be counted, once those before it are. */
  ghost predicate ItemFits(h: Hash, s: Sketch, me: nat, items: seq<Bytes>, incs: seq<int>, i: nat)
    requires Valid(s) && me < |s.comp| && i < |items| == |incs|
  {
    incs[i] > 0 &&
    forall row :: 0 <= row < s.depth ==>
      HasRoom(h, s.(comp := Applied(h, s, me, items, incs, i)), items[i], incs[i], row)
  }

  ghost predicate FirstFit(h: Hash, s: Sketch, me: nat, items: seq<Bytes>, incs: seq<int>, n: nat)
    requires Valid(s) && me < |s.comp| && n <= |items| == |incs|
  {
    forall j :: 0 <= j < n ==> ItemFits(h, s, me, items, incs, j)
  }

  /** The whole call can be counted. */
  ghost predicate Countable(h: Hash, s: Sketch, me: nat, items: seq<Bytes>, incs: seq<int>)
    requires Valid(s) && me < |s.comp| && |items| == |incs|
  {
    FirstFit(h, s, me, items, incs, |items|)
  }

  /** Row k of item i is the first the call cannot take; a non-positive increment is refused before any row. */
  ghost predicate FirstRefusal(h: Hash, s: Sketch, me: nat, items: seq<Bytes>, incs: seq<int>, i: nat, k: nat)
    requires Valid(s) && me < |s.comp| && |items| == |incs|
  {
    i < |items| && k < s.depth &&
    FirstFit(h, s, me, items, incs, i) &&
    var now := s.(comp := Applied(h, s, me, items, incs, i));
    if incs[i] <= 0 then k == 0
    else
      (forall row :: 0 <= row < k ==> HasRoom(h, now, items[i], incs[i], row)) &&
      !HasRoom(h, now, items[i], incs[i], k)
  }

  lemma RefusalNotCountable(h: Hash, s: Sketch, me: nat, items: seq<Bytes>, incs: seq<int>, i: nat, k: nat)
    requires Valid(s) && me < |s.comp| && |items| == |incs| && FirstRefusal(h, s, me, items, incs, i, k)
    ensures !Countable(h, s, me, items, incs)
  {
    assert !ItemFits(h, s, me, items, incs, i);
  }

  /** The very first cell, or the first increment, is refused. */
  predicate RefusedAtOnce(h: Hash, s: Sketch, items: seq<Bytes>, incs: seq<int>)
    requires Valid(s) && |items| == |incs|
  {
    items != [] && (incs[0] <= 0 || !HasRoom(h, s, items[0], incs[0], 0))
  }

  /** What a refused call leaves written keeps the balance exactly when that is nothing. */
  lemma RefusedIncrBalanceIff(h: Hash, s: Sketch, me: nat, items: seq<Bytes>, incs: seq<int>, i: nat, k: nat)
    requires Valid(s) && Balanced(s) && me < |s.comp| && |items| == |incs|
    requires FirstRefusal(h, s, me, items, incs, i, k)
    ensures Balanced(s.(comp := Failed(h, s, me, items, incs, i, k))) <==> RefusedAtOnce(h, s, items, incs)
  {
    var s' := s.(comp := Failed(h, s, me, items, incs, i, k));
    AppliedSum(h, s, me, items, incs, i, 0);
    AddRowsSum(h, Applied(h, s, me, items, incs, i), s.width, s.depth, me, items[i], incs[i], k, 0);
    forall j | 0 <= j < i ensures incs[j] > 0 { assert ItemFits(h, s, me, items, incs, j); }
    PositiveSum(incs, i);
    assert RowSum(s.comp[me], s.width, s.depth, 0) == s.tot[me];
    if i == 0 && k == 0 { assert s' == s; }
    assert s.(comp := Applied(h, s, me, items, incs, 0)) == s;
    if i > 0 { assert ItemFits(h, s, me, items, incs, 0); }
  }

  /** What has been written when row k of item i is refused. */
  function Failed(h: Hash, s: Sketch, me: nat, items: seq<Bytes>, incs: seq<int>, i: nat, k: nat): (r: Comp)
    requires Valid(s) && me < |s.comp| && i < |items| == |incs| && k < s.depth
    ensures |r| == |s.comp| && Sized(r, s.depth * s.width)
  {
    AddRows(h, Applied(h, s, me, items, incs, i), s.width, s.depth, me, items[i], incs[i], k)
  }

  lemma {:induction false} PositiveSum(incs: seq<int>, i: nat)
    requires i <= |incs| && forall j :: 0 <= j < i ==> incs[j] > 0
    ensures Sum(incs, 0, i) >= i
  {
    if i > 0 { PositiveSum(incs, i - 1); }
  }

  // ---- estimates over increment-only runs ----

  /** One increment by replica `me`, of which the first `rows` rows were written: all of them, unless the
      call was refused on the way. */
  datatype Inc = Inc(me: nat, item: Bytes, amount: int, rows: nat)

  predicate Possible(s: Sketch, x: Inc) { x.me < |s.comp| && x.amount > 0 && x.rows <= s.depth }

  function After(h: Hash, s: Sketch, run: seq<Inc>, n: nat): (r: Comp)
    requires Valid(s) && n <= |run| && forall i :: 0 <= i < |run| ==> Possible(s, run[i])
    ensures |r| == |s.comp| && Sized(r, s.depth * s.width)
  {
    if n == 0 then s.comp
    else
      var x := run[n - 1];
      AddRows(h, After(h, s, run, n - 1), s.width, s.depth, x.me, x.item, x.amount, x.rows)
  }

  /** The acknowledged count of an item, and everything written to row `row`. */
  function Truth(s: Sketch, run: seq<Inc>, n: nat, item: Bytes): int
    requires n <= |run|
  {
    if n == 0 then 0 else
      var x := run[n - 1];
      Truth(s, run, n - 1, item) + if x.item == item && x.rows == s.depth then x.amount else 0
  }

  function Written(run: seq<Inc>, n: nat, row: nat): int
    requires n <= |run|
  {
    if n == 0 then 0 else Written(run, n - 1, row) + (if row < run[n - 1].rows then run[n - 1].amount else 0)
  }

  /** Every cell of an item holds at least its acknowledged count and at most what was written to the row. */
  lemma {:induction false} CellBounds(h: Hash, s: Sketch, run: seq<Inc>, n: nat, item: Bytes, row: nat)
    requires Valid(s) && n <= |run| && (forall i :: 0 <= i < |run| ==> Possible(s, run[i])) && row < s.depth
    requires Cell(h, s.width, item, row) < s.depth * s.width
    ensures var c := Cell(h, s.width, item, row);
      Value(s, c) + Truth(s, run, n, item) <= CellSum(After(h, s, run, n), |s.comp|, c)
        <= Value(s, c) + Written(run, n, row)
  {
    if n > 0 {
      CellBounds(h, s, run, n - 1, item, row);
      var x := run[n - 1];
      AddRowsCell(h, After(h, s, run, n - 1), s.width, s.depth, x.me, x.item, x.amount, x.rows, item, row);
    }
  }

  /** The smallest of the item's first k cells, from MaxInt64 down. */
  function Estimate(h: Hash, s: Sketch, item: Bytes, k: nat): int
    requires Valid(s) && k <= s.depth
  {
    if k == 0 then MAX else
      CellInRow(h, s.width, item, k - 1, s.depth, 0);
      var e, v := Estimate(h, s, item, k - 1), Wrap(Value(s, Cell(h, s.width, item, k - 1)));
      if v < e then v else e
  }

  function Answer(h: Hash, s: Sketch, item: Bytes): int
    requires Valid(s)
  {
    var e := Estimate(h, s, item, s.depth);
    if e > 0 then e else 0
  }

  predicate Zero(s: Sketch)
    requires Valid(s)
  {
    forall c :: 0 <= c < s.depth * s.width ==> Value(s, c) == 0
  }

  predicate AtLeast(s: Sketch, c: nat, lo: int)
    requires Valid(s)
  {
    c < s.depth * s.width ==> Wrap(Value(s, c)) >= lo
  }

  lemma {:induction false} EstimateBound(h: Hash, s: Sketch, item: Bytes, k: nat, lo: int)
    requires Valid(s) && k <= s.depth && lo <= MAX
    requires forall row :: 0 <= row < s.depth ==> AtLeast(s, Cell(h, s.width, item, row), lo)
    ensures Estimate(h, s, item, k) >= lo
  {
    if k > 0 {
      EstimateBound(h, s, item, k - 1, lo);
      CellInRow(h, s.width, item, k - 1, s.depth, 0);
    }
  }

  /** None of the item's cells, summed over the replicas, has left the int64 range. */
  predicate InRange(h: Hash, s: Sketch, item: Bytes)
    requires Valid(s)
  {
    forall row :: 0 <= row < s.depth ==> CellInRange(h, s, item, row)
  }

  predicate CellInRange(h: Hash, s: Sketch, item: Bytes, row: nat)
    requires Valid(s) && row < s.depth
  {
    CellInRow(h, s.width, item, row, s.depth, 0);
    0 <= Value(s, Cell(h, s.width, item, row)) <= MAX
  }

  lemma {:induction false} TruthNonNegative(s: Sketch, run: seq<Inc>, n: nat, item: Bytes)
    requires n <= |run| && forall i :: 0 <= i < |run| ==> Possible(s, run[i])
    ensures Truth(s, run, n, item) >= 0
  {
    if n > 0 { TruthNonNegative(s, run, n - 1, item); }
  }

  lemma CountedIn(h: Hash, s: Sketch, run: seq<Inc>, item: Bytes, row: nat)
    requires Valid(s) && Zero(s) && (forall i :: 0 <= i < |run| ==> Possible(s, run[i])) && row < s.depth
    requires CellInRange(h, s.(comp := After(h, s, run, |run|)), item, row)
    ensures AtLeast(s.(comp := After(h, s, run, |run|)), Cell(h, s.width, item, row), Truth(s, run, |run|, item))
    ensures Truth(s, run, |run|, item) <= MAX
  {
    CellInRow(h, s.width, item, row, s.depth, 0);
    CellBounds(h, s, run, |run|, item, row);
    var c := Cell(h, s.width, item, row);
    assert Value(s, c) == 0;
    WrapId(CellSum(After(h, s, run, |run|), |s.comp|, c));
  }

  /** Increment-only runs, by any replicas and with calls refused on the way, never underestimate an item whose
      cells are in range. */
  lemma NeverUnderestimates(h: Hash, s: Sketch, run: seq<Inc>, item: Bytes)
    requires Valid(s) && Zero(s) && forall i :: 0 <= i < |run| ==> Possible(s, run[i])
    requires InRange(h, s.(comp := After(h, s, run, |run|)), item)
    ensures Answer(h, s.(comp := After(h, s, run, |run|)), item) >= Truth(s, run, |run|, item)
  {
    var s' := s.(comp := After(h, s, run, |run|));
    forall row | 0 <= row < s.depth
      ensures AtLeast(s', Cell(h, s.width, item, row), Truth(s, run, |run|, item))
    {
      CountedIn(h, s, run, item, row);
    }
    assert CellInRange(h, s', item, 0);
    CountedIn(h, s, run, item, 0);
    EstimateBound(h, s', item, s.depth, Truth(s, run, |run|, item));
  }

  /** The cell, summed over the replicas, is below 2^64; any two int64 components sum to less. */
  predicate CellBelow(h: Hash, s: Sketch, item: Bytes, row: nat)
    requires Valid(s) && row < s.depth
  {
    CellInRow(h, s.width, item, row, s.depth, 0);
    Value(s, Cell(h, s.width, item, row)) < U64
  }

  /** Below 2^64 the estimate is right exactly when every cell of the item is in range, or nothing was counted. */
  lemma UnderestimatesIff(h: Hash, s: Sketch, run: seq<Inc>, item: Bytes)
    requires Valid(s) && Zero(s) && forall i :: 0 <= i < |run| ==> Possible(s, run[i])
    requires forall row :: 0 <= row < s.depth ==> CellBelow(h, s.(comp := After(h, s, run, |run|)), item, row)
    ensures var s', truth := s.(comp := After(h, s, run, |run|)), Truth(s, run, |run|, item);
      Answer(h, s', item) >= truth <==> InRange(h, s', item) || truth <= 0
  {
    var s' := s.(comp := After(h, s, run, |run|));
    if InRange(h, s', item) {
      NeverUnderestimates(h, s, run, item);
    } else {
      var row :| 0 <= row < s.depth && !CellInRange(h, s', item, row);
      assert CellBelow(h, s', item, row);
      TruthNonNegative(s, run, |run|, item);
      CellInRow(h, s.width, item, row, s.depth, 0);
      CellBounds(h, s, run, |run|, item, row);
      OutOfRangeIsZero(h, s', item, row);
    }
  }

  lemma OutOfRangeIsZero(h: Hash, s: Sketch, item: Bytes, row: nat)
    requires Valid(s) && row < s.depth && CellBelow(h, s, item, row) && !CellInRange(h, s, item, row)
    requires Cell(h, s.width, item, row) < s.depth * s.width && Value(s, Cell(h, s.width, item, row)) >= 0
    ensures Answer(h, s, item) == 0
  {
    EstimateAtMost(h, s, item, s.depth, row);
  }

  lemma {:induction false} EstimateAtMost(h: Hash, s: Sketch, item: Bytes, k: nat, row: nat)
    requires Valid(s) && row < k <= s.depth && Cell(h, s.width, item, row) < s.depth * s.width
    ensures Estimate(h, s, item, k) <= Wrap(Value(s, Cell(h, s.width, item, row)))
  {
    if row < k - 1 { EstimateAtMost(h, s, item, k - 1, row); }
  }

  /** Two replicas that have not seen each other can overflow a shared cell, and the estimate drops to zero. */
  lemma OverflowUnderestimates(h: Hash, x: Bytes, y: Bytes)
    requires x != y
    ensures
      var s := Sketch(1, 1, [[0], [0]], [0, 0]);
      var run := [Inc(0, x, MAX, 1), Inc(1, y, 1, 1)];
      && Valid(s) && Zero(s) && (forall i :: 0 <= i < |run| ==> Possible(s, run[i]))
      && Truth(s, run, 2, x) == MAX && Answer(h, s.(comp := After(h, s, run, 2)), x) == 0
  {
    var s := Sketch(1, 1, [[0], [0]], [0, 0]);
    var run := [Inc(0, x, MAX, 1), Inc(1, y, 1, 1)];
    assert forall c: nat :: c < 1 ==> CellSum(s.comp, 1, c) == 0 && Value(s, c) == 0;
    CellInRow(h, 1, x, 0, 1, 0);
    CellInRow(h, 1, y, 0, 1, 0);
    var first := After(h, s, run, 1);
    assert After(h, s, run, 0) == s.comp;
    AddRowsCell(h, s.comp, 1, 1, 0, x, MAX, 1, x, 0);
    AddRowsCell(h, first, 1, 1, 1, y, 1, 1, x, 0);
    assert Truth(s, run, 1, x) == MAX;
    var s' := s.(comp := After(h, s, run, 2));
    assert Value(s', 0) == MAX + 1;
    assert Estimate(h, s', x, 0) == MAX;
  }

  /** Nor does an estimate exceed what was written in all. */
  lemma NeverAboveTotal(h: Hash, s: Sketch, run: seq<Inc>, item: Bytes)
    requires Valid(s) && Zero(s) && forall i :: 0 <= i < |run| ==> Possible(s, run[i])
    ensures Answer(h, s.(comp := After(h, s, run, |run|)), item) <= Written(run, |run|, 0)
  {
    var s' := s.(comp := After(h, s, run, |run|));
    CellInRow(h, s.width, item, 0, s.depth, 0);
    CellBounds(h, s, run, |run|, item, 0);
    TruthNonNegative(s, run, |run|, item);
    EstimateAtMost(h, s', item, s.depth, 0);
    WrittenNonNegative(s, run, |run|);
  }

  lemma {:induction false} WrittenNonNegative(s: Sketch, run: seq<Inc>, n: nat)
    requires n <= |run| && forall i :: 0 <= i < |run| ==> Possible(s, run[i])
    ensures Written(run, n, 0) >= 0
  {
    if n > 0 { WrittenNonNegative(s, run, n - 1); }
  }
}
