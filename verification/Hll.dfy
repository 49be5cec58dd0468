/** HyperLogLog registers: adding, merging, and what a replica's own sketch has to hold. */
module Hll {
  const M: nat := 16384
  const Q: nat := 50

  predicate IsSketch(h: seq<nat>) {
    |h| == M && forall i :: 0 <= i < M ==> h[i] <= Q + 1
  }

  // ---- registers ----

  function Max(a: nat, b: nat): nat { if a >= b then a else b }

  function TrailingZeros(n: nat): nat
    requires n > 0
  {
    if n % 2 == 1 then 0 else 1 + TrailingZeros(n / 2)
  }

  function Pow2(k: nat): (p: nat)
    ensures p > 0
  {
    if k == 0 then 1 else 2 * Pow2(k - 1)
  }

  lemma {:induction false} TrailingZerosBound(n: nat, k: nat)
    requires 0 < n < 2 * Pow2(k)
    ensures TrailingZeros(n) <= k
  {
    if n % 2 == 0 {
      assert k > 0;
      TrailingZerosBound(n / 2, k - 1);
    }
  }

  const TwoQ: nat := 0x4_0000_0000_0000

  lemma TwoQIsPow2()
    ensures Pow2(Q) == TwoQ
  {
    assert Pow2(10) == 1024;
    assert Pow2(20) == 0x10_0000;
    assert Pow2(30) == 0x4000_0000;
    assert Pow2(40) == 0x100_0000_0000;
  }

  /** Register and rank of a 64-bit hash; the sentinel bit bounds the rank. */
  function Index(x: nat): nat { x % M }

  function Rank(x: nat): (r: nat)
    requires x < 0x1_0000_0000_0000_0000
    ensures 1 <= r <= Q + 1
  {
    TwoQIsPow2();
    TrailingZerosBound(x / M + TwoQ, Q);
    TrailingZeros(x / M + TwoQ) + 1
  }

  /** Folding one hashed element in. */
  function Add(h: seq<nat>, x: nat): (h': seq<nat>)
    requires |h| == M && x < 0x1_0000_0000_0000_0000
    ensures |h'| == M && (IsSketch(h) ==> IsSketch(h'))
  {
    h[Index(x) := Max(h[Index(x)], Rank(x))]
  }

  function Merge(a: seq<nat>, b: seq<nat>): (c: seq<nat>)
    requires |a| == M && |b| == M
    ensures |c| == M && (IsSketch(a) && IsSketch(b) ==> IsSketch(c))
  {
    seq(M, i requires 0 <= i < M => Max(a[i], b[i]))
  }

  /** add and merge on the register array itself. */
  method AddInPlace(h: array<nat>, x: nat) returns (grew: bool)
    requires h.Length == M && x < 0x1_0000_0000_0000_0000
    modifies h
    ensures h[..] == Add(old(h[..]), x)
    ensures grew <==> h[..] != old(h[..])
  {
    var idx, rank := Index(x), Rank(x);
    if rank > h[idx] {
      h[idx] := rank;
      assert h[..][idx] != old(h[..])[idx];
      return true;
    }
    assert h[..] == Add(h[..], x);
    return false;
  }

  method MergeInPlace(h: array<nat>, o: seq<nat>) returns (changed: bool)
    requires h.Length == M && |o| == M
    modifies h
    ensures h[..] == Merge(old(h[..]), o)
    ensures changed <==> h[..] != old(h[..])
  {
    changed := false;
    var i := 0;
    while i < M
      invariant 0 <= i <= M
      invariant forall k :: 0 <= k < i ==> h[k] == Max(old(h[k]), o[k])
      invariant forall k :: i <= k < M ==> h[k] == old(h[k])
      invariant changed <==> exists k :: 0 <= k < i && h[k] != old(h[k])
    {
      if o[i] > h[i] {
        h[i] := o[i];
        changed := true;
      }
      i := i + 1;
    }
    assert h[..] == Merge(old(h[..]), o);
    if changed {
      ghost var k :| 0 <= k < M && h[k] != old(h[k]);
      assert h[..][k] != old(h[..])[k];
    } else {
      assert h[..] == old(h[..]);
    }
  }

  function AddAll(h: seq<nat>, xs: seq<nat>): (h': seq<nat>)
    requires |h| == M && forall i :: 0 <= i < |xs| ==> xs[i] < 0x1_0000_0000_0000_0000
    ensures |h'| == M && (IsSketch(h) ==> IsSketch(h'))
    decreases |xs|
  {
    if xs == [] then h else AddAll(Add(h, xs[0]), xs[1..])
  }

  lemma MergeAdd(a: seq<nat>, b: seq<nat>, x: nat)
    requires |a| == M && |b| == M && x < 0x1_0000_0000_0000_0000
    ensures Merge(a, Add(b, x)) == Add(Merge(a, b), x)
    ensures Merge(a, b) == Add(Merge(a, b), x) ==> Merge(a, Add(b, x)) == Merge(a, b)
  {
    var l, r := Merge(a, Add(b, x)), Add(Merge(a, b), x);
    forall i | 0 <= i < M ensures l[i] == r[i] {}
  }

  /** PFADD: an element goes into this replica's own sketch only if it changes the merged view; all
      the same, the merged view afterwards is the old one with every element folded in. */
  lemma {:induction false} OwnGetsEnough(others: seq<nat>, own: seq<nat>, xs: seq<nat>)
    requires |others| == M && |own| == M && forall i :: 0 <= i < |xs| ==> xs[i] < 0x1_0000_0000_0000_0000
    ensures Merge(others, PfAdd(others, own, xs)) == AddAll(Merge(others, own), xs)
    decreases |xs|
  {
    if xs != [] {
      MergeAdd(others, own, xs[0]);
      OwnGetsEnough(others, PfStep(others, own, xs[0]), xs[1..]);
    }
  }

  function PfStep(others: seq<nat>, own: seq<nat>, x: nat): (own': seq<nat>)
    requires |others| == M && |own| == M && x < 0x1_0000_0000_0000_0000
    ensures |own'| == M
  {
    if Add(Merge(others, own), x) != Merge(others, own) then Add(own, x) else own
  }

  function PfAdd(others: seq<nat>, own: seq<nat>, xs: seq<nat>): (own': seq<nat>)
    requires |others| == M && |own| == M && forall i :: 0 <= i < |xs| ==> xs[i] < 0x1_0000_0000_0000_0000
    ensures |own'| == M
    decreases |xs|
  {
    if xs == [] then own else PfAdd(others, PfStep(others, own, xs[0]), xs[1..])
  }
}
