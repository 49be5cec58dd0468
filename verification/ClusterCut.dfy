/** The cut is sound: what a committed round purges is exactly what its seed was built from. */
module ClusterCut {
  import opened Prelude
  import opened Cluster
  import opened ClusterProof

  /** A node's blocks of the latest committed generation, active or kept. */
  function Blocks(s: State, i: nat): set<Block>
    requires IsNode(s, i)
  {
    var n := s.nodes[i];
    if n.prev && n.gen == s.base + 1 then n.prior else n.have
  }

  ghost function Down(u: set<Block>): iset<Block> {
    iset x | Below(u, x)
  }

  ghost predicate Same(have: set<Block>, d: iset<Block>) {
    forall x :: x in have <==> x in d
  }

  /** Some member whose answer is not (yet) good holds x. */
  ghost predicate Excused(s: State, r: nat, x: Block)
    requires IsRound(s, r)
  {
    exists b: nat :: IsNode(s, b) && !Good(s.rounds[r], b) && x in Blocks(s, b)
  }

  /** Node m holds everything in d, and nothing else that is not excused. */
  ghost predicate Collected(s: State, r: nat, m: nat, d: iset<Block>)
    requires IsRound(s, r) && IsNode(s, m)
  {
    && (forall x :: x in d ==> x in Blocks(s, m))
    && (forall x :: x in Blocks(s, m) ==> x in d || Excused(s, r, x))
  }

  /** Everybody who answered the latest prepare has stayed frozen since. */
  ghost predicate Quiet(s: State, r: nat)
    requires IsRound(s, r)
  {
    forall m: nat :: m in s.rounds[r].replies ==> IsNode(s, m) && PreparedIn(s.nodes[m], r)
  }

  ghost predicate Phase1Ok(s: State, r: nat)
    requires IsRound(s, r)
  {
    var x := s.rounds[r];
    && (x.collecting && Quiet(s, r) ==>
          forall m: nat :: IsNode(s, m) && Good(x, m) ==> Collected(s, r, m, Down(x.union)))
    && (x.stable >= 2 ==>
          && (forall m: nat :: Others(s, x.coord, m) ==> m in x.replies)
          && (Quiet(s, r) ==> forall i: nat :: IsNode(s, i) ==> Same(Blocks(s, i), Down(x.union))))
  }

  ghost predicate Seeded(s: State, r: nat)
    requires IsRound(s, r)
  {
    var x := s.rounds[r];
    x.genesis.Some? ==>
      forall m: nat :: IsNode(s, m) && InRound(s.nodes[m], r) && (m in x.ready || m == x.coord) ==>
        x.genesis.value in s.nodes[m].have
  }

  ghost predicate CutOk(s: State, r: nat)
    requires IsRound(s, r)
  {
    var x := s.rounds[r];
    && (x.decision == Running && !x.switched ==> Phase1Ok(s, r))
    && (x.decision == Running && x.switched && !Doomed(s, r) ==>
          forall i: nat :: IsNode(s, i) ==> Blocks(s, i) == x.cut)
    && Seeded(s, r)
    && (x.decision == Committed ==>
          forall m: nat :: IsNode(s, m) && InRound(s.nodes[m], r) ==>
            m in x.ready && s.nodes[m].prior == x.cut)
  }

  ghost predicate DataInv(s: State) {
    forall r: nat :: IsRound(s, r) ==> CutOk(s, r)
  }

  // ---- blocks and heads ----

  /** A member that reports no head outside U, nothing of U missing and an empty queue holds
      exactly the blocks reachable from U. */
  lemma GoodAnswer(have: set<Block>, heads: set<Block>, u: set<Block>)
    requires Heads(have, heads) && heads <= u && u <= have && Closed(have)
    ensures Same(have, Down(u))
  {
    forall x | x in have ensures Below(u, x) {
      if x in heads { assert Reaches(x, x); } else {
        var h :| h in heads && Reaches(h, x);
        assert h in u;
      }
    }
    forall x | Below(u, x) ensures x in have {
      var h :| h in u && Reaches(h, x);
      assert h in have;
      assert Below(have, x);
    }
  }

  // ---- preservation ----

  predicate MayJoin(x: Round, i: nat) {
    (i in x.replies || i !in x.activated) && i != x.coord
  }

  lemma CollectedKept(s: State, s': State, r: nat, m: nat, d: iset<Block>)
    requires IsRound(s, r) && IsNode(s, m) && Extends(s, s') && Collected(s, r, m, d)
    requires forall i: nat :: IsNode(s, i) ==> Blocks(s', i) == Blocks(s, i)
    requires forall i: nat, y ::
      IsNode(s, i) && !Good(s.rounds[r], i) && y in Blocks(s, i) && y !in d ==> !Good(s'.rounds[r], i)
    ensures Collected(s', r, m, d)
  {
    forall y | y in Blocks(s', m) && y !in d ensures Excused(s', r, y) {
      var b: nat :| IsNode(s, b) && !Good(s.rounds[r], b) && y in Blocks(s, b);
      assert y in Blocks(s', b);
    }
  }

  /** A round survives any step that leaves its record (but for history) and every member's
      blocks alone, and lets nobody into it. */
  lemma CutKept(s: State, s': State, r: nat)
    requires IsRound(s, r) && CutOk(s, r) && Extends(s, s')
    requires s'.rounds[r] == s.rounds[r].(purged := s'.rounds[r].purged, returned := s'.rounds[r].returned)
    requires forall i: nat :: IsNode(s, i) ==>
      && Blocks(s', i) == Blocks(s, i)
      && (PreparedIn(s'.nodes[i], r) && MayJoin(s.rounds[r], i) ==> PreparedIn(s.nodes[i], r))
      && (InRound(s'.nodes[i], r) ==>
            && InRound(s.nodes[i], r) && s.nodes[i].have <= s'.nodes[i].have
            && s.nodes[i].prior == s'.nodes[i].prior)
    requires forall m: nat :: m in s.rounds[r].replies ==> Others(s, s.rounds[r].coord, m)
    ensures CutOk(s', r)
  {
    var x := s.rounds[r];
    if Doomed(s, r) { DoomStays(s, s', r); }
    if x.decision == Running && !x.switched && Quiet(s', r) {
      assert Quiet(s, r);
      forall m: nat | x.collecting && IsNode(s, m) && Good(x, m) ensures Collected(s', r, m, Down(x.union)) {
        CollectedKept(s, s', r, m, Down(x.union));
      }
    }
  }

  ghost predicate BothInv(s: State) { Inv(s) && DataInv(s) }

  lemma SettleCut(s: State, m: nat, commit: bool)
    requires BothInv(s) && IsNode(s, m) && s.nodes[m].part.Some? && s.nodes[m].coord.None?
    requires s.nodes[m].prev ==> (commit <==> IsCommitted(s, s.nodes[m].of))
    ensures DataInv(Settle(s, m, commit))
  {
    var s' := Settle(s, m, commit);
    SettledBlocks(s, m, commit);
    forall r: nat | IsRound(s', r) ensures CutOk(s', r) {
      assert RoundOk(s, r) && CutOk(s, r);
      SettledRound(s, s', m, r);
    }
  }

  lemma SettledRound(s: State, s': State, m: nat, r: nat)
    requires IsRound(s, r) && RoundOk(s, r) && CutOk(s, r) && Extends(s, s') && IsNode(s, m)
    requires s'.rounds[r] == s.rounds[r].(purged := s'.rounds[r].purged, returned := s'.rounds[r].returned)
    requires Blocks(s', m) == Blocks(s, m) && s'.nodes[m].part.None? && !s'.nodes[m].prev
    requires forall i: nat :: IsNode(s, i) && i != m ==> s'.nodes[i] == s.nodes[i]
    ensures CutOk(s', r)
  {
    CutKept(s, s', r);
  }

  /** Settling drops the superseded generation, never the committed one. */
  lemma SettledBlocks(s: State, m: nat, commit: bool)
    requires Inv(s) && IsNode(s, m) && s.nodes[m].part.Some? && s.nodes[m].coord.None?
    requires s.nodes[m].prev ==> (commit <==> IsCommitted(s, s.nodes[m].of))
    ensures
      var s' := Settle(s, m, commit);
      && Blocks(s', m) == Blocks(s, m) && s'.nodes[m].part.None? && !s'.nodes[m].prev
      && forall i: nat :: IsNode(s, i) && i != m ==> s'.nodes[i] == s.nodes[i]
  {
    assert NodeOk(s, m);
  }

  lemma MemoryCut(s: State, m: nat, n: Node)
    requires BothInv(s) && IsNode(s, m)
    requires n == s.nodes[m].(asked := n.asked, waits := n.waits)
    ensures DataInv(SetNode(s, m, n))
  {
    var s' := SetNode(s, m, n);
    forall r: nat | IsRound(s', r) ensures CutOk(s', r) {
      assert RoundOk(s, r);
      CutKept(s, s', r);
    }
  }

  lemma ResolutionCut(s: State, a: Action)
    requires BothInv(s) && Enabled(s, a) && (a.OnDecision? || a.Abandon? || a.Ask?)
    ensures DataInv(Next(s, a))
  {
    assert NodeOk(s, a.m);
    var n := s.nodes[a.m];
    match a {
      case OnDecision(m, r) =>
        if n.part.Some? && n.part.value.round == Some(r) {
          SettleCut(s, m, s.rounds[r].decision == Committed);
        }
      case Abandon(m) => SettleCut(s, m, false);
      case Ask(m) => MemoryCut(s, m, n.(asked := Some(map[])));
    }
  }

  lemma OutcomeCut(s: State, a: Action)
    requires BothInv(s) && a.OnOutcome? && Sound(s, a)
    ensures DataInv(Next(s, a))
  {
    var n, ans := s.nodes[a.m], StatusOf(s.nodes[a.b], s.nodes[a.m]);
    var s1 := SetNode(s, a.m, Recorded(n, a.b, ans));
    RecordedInv(s, a.m, a.b);
    VerdictIsRight(s, a.m, a.b);
    MemoryCut(s, a.m, Recorded(n, a.b, ans));
    match Resolve(s1.nodes[a.m], a.m, ans, |s.nodes|) {
      case Commits => SettleCut(s1, a.m, true);
      case RollsBack => SettleCut(s1, a.m, false);
      case Waits =>
    }
  }

  lemma StartCut(s: State, a: Action)
    requires BothInv(s) && a.Start? && Enabled(s, a)
    ensures DataInv(Next(s, a))
  {
    var s' := Next(s, a);
    forall r: nat | IsRound(s', r) ensures CutOk(s', r) {
      if r < |s.rounds| { assert RoundOk(s, r); CutKept(s, s', r); }
      else { forall m: nat | IsNode(s', m) ensures !InRound(s'.nodes[m], r) { assert NodeOk(s, m); } }
    }
  }

  lemma PrepareCut(s: State, a: Action)
    requires BothInv(s) && a.Prepare? && Enabled(s, a)
    ensures DataInv(Next(s, a))
  {
    var s' := Next(s, a);
    forall r: nat | IsRound(s', r) ensures CutOk(s', r) {
      assert RoundOk(s, r) && CutOk(s, r);
      if r != s.nodes[a.c].coord.value { CutKept(s, s', r); }
    }
  }

  /** Recording an answer: a good one pins down the answering member's blocks. */
  lemma OnPrepareCut(s: State, a: Action)
    requires BothInv(s) && a.OnPrepare? && Enabled(s, a)
    ensures DataInv(Next(s, a))
  {
    var s' := Next(s, a);
    forall r: nat | IsRound(s', r) ensures CutOk(s', r) {
      if r != a.r { OnPrepareCutOther(s, a, r); } else { OnPrepareCutHere(s, a); }
    }
  }

  lemma OnPrepareCutOther(s: State, a: Action, r: nat)
    requires BothInv(s) && a.OnPrepare? && Enabled(s, a) && IsRound(s, r) && r != a.r
    ensures CutOk(Next(s, a), r)
  {
    assert NodeOk(s, a.m) && RoundOk(s, r) && CutOk(s, r);
    var s' := DoPrepare(s, a.m, a.r, a.k, a.heads, a.busy);
    assert SameHoldings(s, s');
    CutKept(s, s', r);
  }

  lemma OnPrepareCutHere(s: State, a: Action)
    requires BothInv(s) && a.OnPrepare? && Enabled(s, a)
    ensures CutOk(Next(s, a), a.r)
  {
    var s', r := Next(s, a), a.r;
    assert NodeOk(s, a.m) && RoundOk(s, r) && CutOk(s, r);
    assert !s.rounds[r].switched && s.rounds[r].stable < 2;
    if s.rounds[r].decision == Running { OnPreparePhase1(s, a); }
  }

  lemma OnPreparePhase1(s: State, a: Action)
    requires a.OnPrepare? && Enabled(s, a) && Phase1Ok(s, a.r) && s.rounds[a.r].stable < 2
    requires NodeOk(s, a.m) && RoundOk(s, a.r)
    ensures Phase1Ok(Next(s, a), a.r)
  {
    var s', r := DoPrepare(s, a.m, a.r, a.k, a.heads, a.busy), a.r;
    var x, x' := s.rounds[r], s'.rounds[r];
    assert a.m !in x.replies;
    if x.collecting && Quiet(s', r) {
      OnPrepareQuiet(s, a);
      if Good(x', a.m) { GoodAnswer(Blocks(s, a.m), a.heads, x.union); }
      AnswerCollected(s, s', r, a.m, Down(x.union));
    }
  }

  lemma OnPrepareQuiet(s: State, a: Action)
    requires a.OnPrepare? && Enabled(s, a) && a.m !in s.rounds[a.r].replies
    requires Quiet(Next(s, a), a.r)
    ensures Quiet(s, a.r)
  {
    var x, x' := s.rounds[a.r], Next(s, a).rounds[a.r];
    forall i: nat | i in x.replies ensures IsNode(s, i) && PreparedIn(s.nodes[i], a.r) { assert i in x'.replies; }
  }

  /** One more answer, from node j; a good one pins down j's blocks, so nothing j holds needs to
      be excused any longer. */
  lemma AnswerCollected(s: State, s': State, r: nat, j: nat, d: iset<Block>)
    requires IsRound(s, r) && IsNode(s, j) && Extends(s, s')
    requires forall i: nat :: IsNode(s, i) ==> Blocks(s', i) == Blocks(s, i)
    requires forall i: nat :: i != j ==> (Good(s'.rounds[r], i) <==> Good(s.rounds[r], i))
    requires Good(s'.rounds[r], j) ==> Same(Blocks(s, j), d)
    requires forall m: nat :: IsNode(s, m) && Good(s.rounds[r], m) ==> Collected(s, r, m, d)
    ensures forall m: nat :: IsNode(s, m) && Good(s'.rounds[r], m) ==> Collected(s', r, m, d)
  {
    forall m: nat | IsNode(s, m) && Good(s'.rounds[r], m) ensures Collected(s', r, m, d) {
      if m != j { CollectedKept(s, s', r, m, d); }
    }
  }

  /** Two full good rounds: every member, the coordinator included, holds the same blocks. */
  lemma EndIterationCut(s: State, a: Action)
    requires BothInv(s) && a.EndIteration? && Enabled(s, a)
    ensures DataInv(Next(s, a))
  {
    var s' := Next(s, a);
    forall r: nat | IsRound(s', r) ensures CutOk(s', r) {
      if r != s.nodes[a.c].coord.value { EndIterationOther(s, a, r); } else { EndIterationHere(s, a); }
    }
  }

  lemma EndIterationOther(s: State, a: Action, r: nat)
    requires BothInv(s) && a.EndIteration? && Enabled(s, a) && IsRound(s, r) && r != s.nodes[a.c].coord.value
    ensures CutOk(Next(s, a), r)
  {
    assert RoundOk(s, r) && CutOk(s, r);
    CutKept(s, Next(s, a), r);
  }

  lemma EndIterationHere(s: State, a: Action)
    requires BothInv(s) && a.EndIteration? && Enabled(s, a)
    ensures CutOk(Next(s, a), s.nodes[a.c].coord.value)
  {
    var s' := Next(s, a);
    var q := s.nodes[a.c].coord.value;
    assert NodeOk(s, a.c) && RoundOk(s, q) && CutOk(s, q);
    var x, x' := s.rounds[q], s'.rounds[q];
    assert Quiet(s', q) ==> Quiet(s, q);
    if x'.stable > 0 {
      EvaluatedGood(x, s.nodes[a.c], |s.nodes|, a.heads, a.busy);
      GoodAnswer(s.nodes[a.c].have, a.heads, x.union);
      forall m: nat | Others(s', x'.coord, m) ensures m in x'.replies { assert Good(x, m); }
      if Quiet(s, q) {
        Converged(s, q, Down(x.union));
        assert forall i: nat :: IsNode(s, i) ==> Blocks(s', i) == Blocks(s, i);
      }
    }
  }

  lemma EvaluatedGood(x: Round, n: Node, count: nat, heads: set<Block>, busy: bool)
    requires forall m: nat :: m in x.replies ==> m < count && m != x.coord
    requires Evaluated(x, n, count, heads, busy).stable > 0
    ensures Evaluated(x, n, count, heads, busy).union == x.union
    ensures heads <= x.union <= n.have && !busy
    ensures forall m: nat :: m < count && m != x.coord ==> Good(x, m)
  {
    var seenHeads := set m, h | m in x.replies && h in x.replies[m].heads :: h;
    forall h | h in seenHeads ensures h in x.union {
      var m :| m in x.replies && h in x.replies[m].heads;
      assert Good(x, m);
    }
  }

  lemma Converged(s: State, q: nat, d: iset<Block>)
    requires IsRound(s, q) && IsNode(s, s.rounds[q].coord)
    requires forall m: nat :: Others(s, s.rounds[q].coord, m) ==> Good(s.rounds[q], m)
    requires forall m: nat :: IsNode(s, m) && Good(s.rounds[q], m) ==> Collected(s, q, m, d)
    requires Same(Blocks(s, s.rounds[q].coord), d)
    ensures forall i: nat :: IsNode(s, i) ==> Same(Blocks(s, i), d)
  {
    var x := s.rounds[q];
    forall i: nat | IsNode(s, i) ensures Same(Blocks(s, i), d) {
      if i != x.coord {
        assert Others(s, x.coord, i) && Good(x, i) && Collected(s, q, i, d);
        forall y | y in Blocks(s, i) ensures y in d {
          if Excused(s, q, y) {
            var b: nat :| IsNode(s, b) && !Good(x, b) && y in Blocks(s, b);
            assert !Others(s, x.coord, b);
          }
        }
      }
    }
  }

  /** At the cut either everybody holds the seeded blocks, or somebody has dropped out. */
  lemma CutCut(s: State, a: Action)
    requires BothInv(s) && a.Cut? && Enabled(s, a)
    ensures DataInv(Next(s, a))
  {
    var s' := Next(s, a);
    var q := s.nodes[a.c].coord.value;
    assert NodeOk(s, a.c);
    forall r: nat | IsRound(s', r) ensures CutOk(s', r) {
      assert RoundOk(s, r) && CutOk(s, r);
      if r != q { CutKept(s, s', r); } else { CutHere(s, a); }
    }
  }

  lemma CutHere(s: State, a: Action)
    requires BothInv(s) && a.Cut? && Enabled(s, a)
    ensures CutOk(Next(s, a), s.nodes[a.c].coord.value)
  {
    var s' := Next(s, a);
    var q := s.nodes[a.c].coord.value;
    assert NodeOk(s, a.c) && RoundOk(s, q) && CutOk(s, q);
    var x := s.rounds[q];
    forall m: nat | IsNode(s', m) && m != a.c ensures !InRound(s'.nodes[m], q) { assert NodeOk(s, m); }
    if Quiet(s, q) {
      forall i: nat | IsNode(s', i) ensures Blocks(s', i) == s.nodes[a.c].have {
        assert Same(Blocks(s, i), Down(x.union)) && Same(Blocks(s, a.c), Down(x.union));
        assert Blocks(s', i) == Blocks(s, i);
      }
    } else {
      var m: nat :| m in x.replies && !(IsNode(s, m) && PreparedIn(s.nodes[m], q));
      assert Out(s', q, m);
    }
  }

  lemma OnSwitchCut(s: State, a: Action)
    requires BothInv(s) && a.OnSwitch? && Enabled(s, a)
    ensures DataInv(Next(s, a))
  {
    var s', n := Next(s, a), s.nodes[a.m];
    assert NodeOk(s, a.m) && RoundOk(s, a.r) && CutOk(s, a.r);
    if PreparedIn(n, a.r) {
      forall r: nat | IsRound(s', r) ensures CutOk(s', r) {
        assert RoundOk(s, r);
        if r != a.r { CutKept(s, s', r); } else { OnSwitchHere(s, a); }
      }
    } else if n.part == Some(Part(Some(a.r), Switched)) {
      MemoryCut(s, a.m, n.(waits := n.waits + {a.r}));
    }
  }

  lemma OnSwitchHere(s: State, a: Action)
    requires BothInv(s) && a.OnSwitch? && Enabled(s, a) && PreparedIn(s.nodes[a.m], a.r)
    ensures CutOk(Next(s, a), a.r)
  {
    var s', r := Next(s, a), a.r;
    assert NodeOk(s, a.m) && RoundOk(s, r) && CutOk(s, r);
    if Doomed(s, r) { DoomStays(s, s', r); }
    forall i: nat | IsNode(s', i) ensures Blocks(s', i) == Blocks(s, i) {}
    assert a.m !in s.rounds[r].ready;
  }

  lemma SendReadyCut(s: State, a: Action)
    requires BothInv(s) && a.SendReady? && Enabled(s, a)
    ensures DataInv(Next(s, a))
  {
    var s', n := Next(s, a), s.nodes[a.m];
    assert NodeOk(s, a.m) && RoundOk(s, a.r);
    var s1 := SetNode(s, a.m, n.(waits := n.waits - {a.r}));
    MemoryCut(s, a.m, n.(waits := n.waits - {a.r}));
    forall r: nat | IsRound(s', r) ensures CutOk(s', r) {
      assert RoundOk(s, r) && CutOk(s1, r);
      if r != a.r { CutKept(s1, s', r); } else { SendReadyHere(s1, s', r, a.m); }
    }
  }

  lemma SendReadyHere(s: State, s': State, r: nat, m: nat)
    requires IsRound(s, r) && IsNode(s, m) && CutOk(s, r) && s.rounds[r].switched
    requires s' == SetRound(s, r, s.rounds[r].(ready := s.rounds[r].ready + {m}))
    requires s.rounds[r].genesis.Some? ==> s.rounds[r].genesis.value in s.nodes[m].have
    ensures CutOk(s', r)
  {
    if Doomed(s, r) { DoomStays(s, s', r); }
    forall i: nat | IsNode(s', i) ensures Blocks(s', i) == Blocks(s, i) {}
  }

  lemma DoneCut(s: State, a: Action)
    requires BothInv(s) && a.Done? && Enabled(s, a)
    ensures DataInv(Next(s, a))
  {
    var s' := Next(s, a);
    var q := s.nodes[a.c].coord.value;
    DoneMeansAllInRound(s, a.c);
    assert NodeOk(s, a.c) && RoundOk(s, q) && CutOk(s, q);
    assert !Doomed(s, q);
    forall r: nat | IsRound(s', r) ensures CutOk(s', r) {
      assert RoundOk(s, r) && CutOk(s, r);
      if r != q {
        assert NodeOk(s, s.rounds[r].coord);
      } else {
        forall m: nat | IsNode(s', m) && InRound(s'.nodes[m], q)
          ensures m in s.rounds[q].ready && s'.nodes[m].prior == s.rounds[q].cut
        {
          assert NodeOk(s, m) && Others(s, a.c, m) && Blocks(s, m) == s.rounds[q].cut;
        }
      }
    }
  }

  lemma AbortCut(s: State, a: Action)
    requires BothInv(s) && a.Abort? && Enabled(s, a)
    ensures DataInv(Next(s, a))
  {
    var s', q := Next(s, a), s.nodes[a.c].coord.value;
    assert NodeOk(s, a.c);
    forall r: nat | IsRound(s', r) ensures CutOk(s', r) {
      assert RoundOk(s, r);
      if r == q { StoppedCut(s, s', r); } else { CutKept(s, s', r); }
    }
  }

  lemma CrashCut(s: State, a: Action)
    requires BothInv(s) && a.Crash? && Enabled(s, a)
    ensures DataInv(Next(s, a))
  {
    var s', n := DoCrash(s, a.m), s.nodes[a.m];
    assert NodeOk(s, a.m);
    forall r: nat | IsRound(s', r) ensures CutOk(s', r) { CrashRound(s, a.m, r); }
  }

  lemma CrashRound(s: State, m: nat, r: nat)
    requires BothInv(s) && IsNode(s, m) && IsRound(s, r)
    ensures CutOk(DoCrash(s, m), r)
  {
    var s', n := DoCrash(s, m), s.nodes[m];
    assert NodeOk(s, m) && RoundOk(s, r) && CutOk(s, r);
    assert SameHoldings(s, s');
    if n.coord == Some(r) { StoppedCut(s, s', r); } else { CutKept(s, s', r); }
  }

  /** Every node's generations and blocks are as they were. */
  ghost predicate SameHoldings(s: State, s': State)
    requires |s.nodes| == |s'.nodes|
  {
    forall i: nat :: IsNode(s, i) ==>
      s'.nodes[i] == s.nodes[i].(part := s'.nodes[i].part, coord := s'.nodes[i].coord,
                                 waits := s'.nodes[i].waits, asked := s'.nodes[i].asked)
  }

  lemma StoppedCut(s: State, s': State, r: nat)
    requires IsRound(s, r) && IsRound(s', r) && |s.nodes| == |s'.nodes| && CutOk(s, r)
    requires s'.rounds[r].decision in {Aborted, Lost} && s'.rounds[r].genesis == s.rounds[r].genesis
    requires s'.rounds[r].ready == s.rounds[r].ready && s'.rounds[r].coord == s.rounds[r].coord
    requires forall i: nat :: IsNode(s, i) && InRound(s'.nodes[i], r) ==>
      InRound(s.nodes[i], r) && s'.nodes[i].have == s.nodes[i].have
    ensures CutOk(s', r)
  {}

  /** Only an idle node mints, so a minter has dropped out of every round it answered. */
  lemma MintCut(s: State, a: Action)
    requires BothInv(s) && a.Mint? && Enabled(s, a)
    ensures DataInv(Next(s, a))
  {
    var s' := Next(s, a);
    assert NodeOk(s, a.m);
    forall r: nat | IsRound(s', r) ensures CutOk(s', r) {
      assert RoundOk(s, r) && CutOk(s, r);
      var x := s.rounds[r];
      if Doomed(s, r) { DoomStays(s, s', r); }
      if x.decision == Running && x.switched { assert Out(s, r, a.m) || Doomed(s, r); }
      if x.decision == Running && !x.switched && Quiet(s', r) {
        assert Quiet(s, r) && a.m !in x.replies;
        GrowsCollected(s, s', r, a.m, Down(x.union));
        assert NodeOk(s, x.coord);
      }
    }
  }

  /** New blocks at a member without a good answer are excused everywhere. */
  lemma GrowsCollected(s: State, s': State, r: nat, j: nat, d: iset<Block>)
    requires IsRound(s, r) && IsNode(s, j) && Extends(s, s') && s.rounds[r] == s'.rounds[r]
    requires forall i: nat :: IsNode(s, i) && i != j ==> Blocks(s', i) == Blocks(s, i)
    requires Blocks(s, j) <= Blocks(s', j)
    requires Good(s.rounds[r], j) ==> forall y :: y in Blocks(s', j) ==> y in d || Excused(s, r, y)
    ensures forall m: nat :: IsNode(s, m) && Good(s.rounds[r], m) && Collected(s, r, m, d) ==> Collected(s', r, m, d)
  {
    forall y | Excused(s, r, y) ensures Excused(s', r, y) {
      var b: nat :| IsNode(s, b) && !Good(s.rounds[r], b) && y in Blocks(s, b);
      assert y in Blocks(s', b);
    }
  }

  lemma GossipCut(s: State, a: Action)
    requires BothInv(s) && a.Gossip? && Enabled(s, a)
    ensures DataInv(Next(s, a))
  {
    var s' := Next(s, a);
    assert NodeOk(s, a.m) && NodeOk(s, a.b);
    assert Blocks(s', a.m) <= Blocks(s, a.m) + Blocks(s, a.b);
    forall r: nat | IsRound(s', r) ensures CutOk(s', r) { GossipRound(s, a, r); }
  }

  lemma GossipRound(s: State, a: Action, r: nat)
    requires BothInv(s) && a.Gossip? && Enabled(s, a) && IsRound(s, r)
    requires Blocks(Next(s, a), a.m) <= Blocks(s, a.m) + Blocks(s, a.b)
    ensures CutOk(Next(s, a), r)
  {
    var s', x := Next(s, a), s.rounds[r];
    assert RoundOk(s, r) && CutOk(s, r);
    if Doomed(s, r) { DoomStays(s, s', r); }
    if x.decision == Running {
      if x.switched { GossipSwitched(s, s', r, a.b, a.m); } else { GossipPhase1(s, s', r, a.b, a.m); }
    }
  }

  lemma GossipSwitched(s: State, s': State, r: nat, b: nat, m: nat)
    requires IsRound(s, r) && IsNode(s, b) && IsNode(s, m) && Extends(s, s')
    requires s'.nodes == s.nodes[m := s.nodes[m].(have := s'.nodes[m].have)] && s.nodes[m].have <= s'.nodes[m].have
    requires Blocks(s', m) <= Blocks(s, m) + Blocks(s, b)
    ensures (forall i: nat :: IsNode(s, i) ==> Blocks(s, i) == s.rounds[r].cut) ==>
      forall i: nat :: IsNode(s', i) ==> Blocks(s', i) == s.rounds[r].cut
  {
    forall i: nat | IsNode(s', i) && i != m ensures Blocks(s', i) == Blocks(s, i) {}
    assert Blocks(s, m) <= Blocks(s', m);
  }

  lemma GossipPhase1(s: State, s': State, r: nat, b: nat, m: nat)
    requires IsRound(s, r) && IsNode(s, b) && IsNode(s, m) && Extends(s, s') && s'.rounds == s.rounds
    requires s'.nodes == s.nodes[m := s.nodes[m].(have := s'.nodes[m].have)] && s.nodes[m].have <= s'.nodes[m].have
    requires Blocks(s', m) <= Blocks(s, m) + Blocks(s, b) && Phase1Ok(s, r)
    ensures Phase1Ok(s', r)
  {
    var x, d := s.rounds[r], Down(s.rounds[r].union);
    if Quiet(s', r) {
      assert Quiet(s, r);
      if x.collecting {
        if Good(x, m) { GossipExcused(s, r, b, m, Blocks(s', m), d); }
        GrowsCollected(s, s', r, m, d);
      }
      if x.stable >= 2 {
        forall i: nat | IsNode(s', i) ensures Same(Blocks(s', i), d) {
          assert Same(Blocks(s, i), d) && Same(Blocks(s, b), d);
        }
      }
    }
  }

  lemma GossipExcused(s: State, r: nat, b: nat, m: nat, got: set<Block>, d: iset<Block>)
    requires IsRound(s, r) && IsNode(s, b) && IsNode(s, m) && got <= Blocks(s, m) + Blocks(s, b)
    requires Collected(s, r, m, d) && (Good(s.rounds[r], b) ==> Collected(s, r, b, d))
    ensures forall y :: y in got ==> y in d || Excused(s, r, y)
  {}

  lemma DataStep(s: State, a: Action)
    requires BothInv(s) && Sound(s, a)
    ensures DataInv(Next(s, a))
  {
    match a
    case Start(_, _) => StartCut(s, a);
    case Prepare(_) => PrepareCut(s, a);
    case OnPrepare(_, _, _, _, _) => OnPrepareCut(s, a);
    case EndIteration(_, _, _) => EndIterationCut(s, a);
    case Cut(_, _) => CutCut(s, a);
    case OnSwitch(_, _) => OnSwitchCut(s, a);
    case SendReady(_, _) => SendReadyCut(s, a);
    case Done(_) => DoneCut(s, a);
    case Abort(_) => AbortCut(s, a);
    case Crash(_) => CrashCut(s, a);
    case OnDecision(_, _) => ResolutionCut(s, a);
    case Abandon(_) => ResolutionCut(s, a);
    case Ask(_) => ResolutionCut(s, a);
    case OnOutcome(_, _) => OutcomeCut(s, a);
    case Mint(_, _) => MintCut(s, a);
    case Gossip(_, _, _) => GossipCut(s, a);
  }
}
