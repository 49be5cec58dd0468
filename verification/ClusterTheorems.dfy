/** What the compaction protocol guarantees, stated over whole runs. */
module ClusterTheorems {
  import opened Prelude
  import opened Cluster
  import opened ClusterProof
  import opened ClusterCut

  lemma {:induction false} RunInv(run: seq<State>, acts: seq<Action>, i: nat)
    requires IsRun(run, acts) && i < |run|
    ensures BothInv(run[i])
  {
    if i == 0 {
      InitInv(run[0]);
    } else {
      RunInv(run, acts, i - 1);
      StepInv(run[i - 1], acts[i - 1]);
      DataStep(run[i - 1], acts[i - 1]);
    }
  }

  /** Agreement, over runs in which nobody rolls back a live round on doubt: no two members end one round differently,
      whatever was lost, whoever crashed and however the members in doubt were resolved; and once one member has
      purged, no member is left that never activated the new generation. */
  lemma Agreement(run: seq<State>, acts: seq<Action>, i: nat, r: nat)
    requires IsRun(run, acts) && i < |run| && IsRound(run[i], r)
    ensures run[i].rounds[r].purged == {} || run[i].rounds[r].returned == {}
    ensures run[i].rounds[r].purged != {} ==>
      forall m: nat :: IsNode(run[i], m) ==> m in run[i].rounds[r].activated
  {
    RunInv(run, acts, i);
    assert RoundOk(run[i], r);
  }

  /** No early purge: a member that keeps no previous generation has purged everything below its
      own, and no member is active below it. */
  lemma NoEarlyPurge(run: seq<State>, acts: seq<Action>, i: nat, m: nat, k: nat)
    requires IsRun(run, acts) && i < |run| && IsNode(run[i], m) && IsNode(run[i], k)
    requires !run[i].nodes[m].prev
    ensures run[i].nodes[m].gen <= run[i].nodes[k].gen
    ensures run[i].nodes[k].gen <= run[i].nodes[m].gen + 1
  {
    RunInv(run, acts, i);
    assert NodeOk(run[i], m) && NodeOk(run[i], k);
  }

  /** When done is broadcast every other member has activated the new generation, holds its seed,
      and still keeps the old one. */
  lemma DoneIsSafe(run: seq<State>, acts: seq<Action>, i: nat, c: nat, m: nat)
    requires IsRun(run, acts) && i < |acts| && acts[i] == Done(c) && IsNode(run[i], m)
    ensures
      var n, x := run[i].nodes[m], MyRound(run[i], c);
      && n.prev && n.gen == run[i].nodes[c].gen && n.prior == x.cut
      && (x.genesis.Some? ==> x.genesis.value in n.have)
  {
    RunInv(run, acts, i);
    DoneStep(run[i], c, m);
  }

  lemma DoneStep(s: State, c: nat, m: nat)
    requires BothInv(s) && Enabled(s, Done(c)) && IsNode(s, m)
    ensures
      var n, x := s.nodes[m], MyRound(s, c);
      && n.prev && n.of == s.nodes[c].coord.value && n.gen == s.nodes[c].gen && n.prior == x.cut
      && (x.genesis.Some? ==> x.genesis.value in n.have)
  {
    var q := s.nodes[c].coord.value;
    DoneMeansAllInRound(s, c);
    assert NodeOk(s, c) && NodeOk(s, m) && RoundOk(s, q) && CutOk(s, q);
    assert InRound(s.nodes[m], q) && InRound(s.nodes[c], q);
    if m != c { assert Others(s, c, m); }
    assert !Doomed(s, q) && Blocks(s, m) == s.rounds[q].cut;
  }

  /** Purging loses nothing: whenever any member drops a generation, by done or by a peer's
      outcome, its blocks are exactly the ones the seed of that round was built from, and it holds
      that seed. */
  lemma PurgeLosesNothing(run: seq<State>, acts: seq<Action>, i: nat, m: nat)
    requires IsRun(run, acts) && i < |acts| && IsNode(run[i], m) && IsNode(run[i + 1], m)
    requires run[i].nodes[m].prev && !run[i + 1].nodes[m].prev
    requires run[i + 1].nodes[m].gen == run[i].nodes[m].gen
    ensures
      var n := run[i].nodes[m];
      && IsRound(run[i], n.of) && IsCommitted(run[i + 1], n.of)
      && n.prior == run[i].rounds[n.of].cut
      && (run[i].rounds[n.of].genesis.Some? ==> run[i].rounds[n.of].genesis.value in n.have)
  {
    RunInv(run, acts, i);
    RunInv(run, acts, i + 1);
    var s, a, s' := run[i], acts[i], run[i + 1];
    if a.Done? {
      DoneStep(s, a.c, m);
      DoneCommits(s, a.c);
    } else {
      BaseKept(s, a);
      PurgedMeansCommitted(s, s', m);
      CoordsRun(s);
      DecisionsAreFinal(s, a, s.nodes[m].of);
    }
  }

  lemma DoneCommits(s: State, c: nat)
    requires Enabled(s, Done(c))
    ensures IsCommitted(Next(s, Done(c)), s.nodes[c].coord.value)
  {}

  lemma PurgedMeansCommitted(s: State, s': State, m: nat)
    requires BothInv(s) && Inv(s') && s'.base == s.base && IsNode(s, m) && IsNode(s', m)
    requires s.nodes[m].prev && !s'.nodes[m].prev && s'.nodes[m].gen == s.nodes[m].gen
    ensures
      var n := s.nodes[m];
      && IsCommitted(s, n.of) && n.prior == s.rounds[n.of].cut
      && (s.rounds[n.of].genesis.Some? ==> s.rounds[n.of].genesis.value in n.have)
  {
    assert NodeOk(s, m) && NodeOk(s', m) && CutOk(s, s.nodes[m].of);
    assert InRound(s.nodes[m], s.nodes[m].of);
  }

  ghost predicate CoordsRunning(s: State) {
    forall i: nat :: InCompact(s, i) ==> MyRound(s, i).decision == Running
  }

  lemma CoordsRun(s: State)
    requires Inv(s)
    ensures CoordsRunning(s)
  {
    forall i: nat | InCompact(s, i) ensures MyRound(s, i).decision == Running { assert NodeOk(s, i); }
  }

  lemma BaseKept(s: State, a: Action)
    requires Enabled(s, a) && !a.Done?
    ensures Next(s, a).base == s.base
  {}

  /** A decided round stays decided. */
  lemma DecisionsAreFinal(s: State, a: Action, r: nat)
    requires CoordsRunning(s) && Enabled(s, a) && IsRound(s, r) && s.rounds[r].decision != Running
    ensures IsRound(Next(s, a), r) && Next(s, a).rounds[r].decision == s.rounds[r].decision
  {
    if a.Crash? && s.nodes[a.m].coord.Some? && IsRound(s, s.nodes[a.m].coord.value) {
      assert InCompact(s, a.m);
    }
  }

  // ---- the cut ----

  lemma OutStays(s: State, a: Action, r: nat, m: nat)
    requires Enabled(s, a) && IsRound(s, r) && s.rounds[r].switched && Out(s, r, m)
    requires |s.rounds[r].seen| == |s.nodes| && s.rounds[r].seen[m] == s.rounds[r].iters
    ensures IsRound(Next(s, a), r) && Next(s, a).rounds[r].switched && Out(Next(s, a), r, m)
  {
    if a.OnPrepare? || a.OnSwitch? {
      OutStaysOnMessage(s, a, r, m);
    } else if a.OnOutcome? || a.OnDecision? || a.Abandon? {
      OutStaysSettling(s, a, r, m);
    }
  }

  lemma OutStaysOnMessage(s: State, a: Action, r: nat, m: nat)
    requires Enabled(s, a) && IsRound(s, r) && s.rounds[r].switched && Out(s, r, m) && (a.OnPrepare? || a.OnSwitch?)
    requires |s.rounds[r].seen| == |s.nodes| && s.rounds[r].seen[m] == s.rounds[r].iters
    ensures IsRound(Next(s, a), r) && Next(s, a).rounds[r].switched && Out(Next(s, a), r, m)
  {}

  lemma OutStaysSettling(s: State, a: Action, r: nat, m: nat)
    requires Enabled(s, a) && IsRound(s, r) && s.rounds[r].switched && Out(s, r, m)
    requires a.OnOutcome? || a.OnDecision? || a.Abandon?
    ensures IsRound(Next(s, a), r) && Next(s, a).rounds[r].switched && Out(Next(s, a), r, m)
  {}

  /** A round with a member out of it never commits. */
  lemma {:induction false} DoomedNeverCommits(run: seq<State>, acts: seq<Action>, i: nat, j: nat, r: nat, m: nat)
    requires IsRun(run, acts) && i <= j < |run| && IsRound(run[i], r)
    requires run[i].rounds[r].switched && run[i].rounds[r].decision != Committed && Out(run[i], r, m)
    ensures IsRound(run[j], r) && run[j].rounds[r].switched && Out(run[j], r, m)
    ensures run[j].rounds[r].decision != Committed
  {
    if i < j {
      DoomedNeverCommits(run, acts, i, j - 1, r, m);
      RunInv(run, acts, j - 1);
      assert RoundOk(run[j - 1], r);
      OutStays(run[j - 1], acts[j - 1], r, m);
      RunInv(run, acts, j);
      assert RoundOk(run[j], r);
    }
  }

  /** Sound cut: when phase 1 exits, either some member has meanwhile left the round, and then the
      round never commits; or no member can mint a block and every member's blocks, hence its
      live state, are those the coordinator seeds the new generation with. */
  lemma SoundCut(run: seq<State>, acts: seq<Action>, i: nat, c: nat, seeded: bool)
    requires IsRun(run, acts) && i < |acts| && acts[i] == Cut(c, seeded)
    ensures
      var r := run[i].nodes[c].coord.value;
      || (forall j: nat :: i < j < |run| ==> IsRound(run[j], r) && run[j].rounds[r].decision != Committed)
      || (forall m: nat :: IsNode(run[i], m) ==>
            run[i].nodes[m].part.Some? && Blocks(run[i], m) == run[i].nodes[c].have)
  {
    var s, s', r := run[i], run[i + 1], run[i].nodes[c].coord.value;
    RunInv(run, acts, i);
    RunInv(run, acts, i + 1);
    assert NodeOk(s, c) && RoundOk(s, r) && CutOk(s, r);
    if Quiet(s, r) {
      forall m: nat | IsNode(s, m) ensures s.nodes[m].part.Some? && Blocks(s, m) == s.nodes[c].have {
        assert Same(Blocks(s, m), Down(s.rounds[r].union)) && Same(Blocks(s, c), Down(s.rounds[r].union));
        if m != c { assert Others(s, s.rounds[r].coord, m); }
      }
    } else {
      var m: nat :| m in s.rounds[r].replies && !(IsNode(s, m) && PreparedIn(s.nodes[m], r));
      assert Out(s', r, m);
      forall j: nat | i < j < |run| ensures IsRound(run[j], r) && run[j].rounds[r].decision != Committed {
        DoomedNeverCommits(run, acts, i + 1, j, r, m);
      }
    }
  }

  // ---- what the run condition is about ----

  /** A member that rolls back because everybody is in doubt keeps the invariant, and so agreement, exactly when its
      round is dead. */
  lemma RollbackOnDoubtIff(s: State, m: nat, b: nat)
    requires Inv(s) && Enabled(s, OnOutcome(m, b)) && RollsBackOnDoubt(s, m, b)
    ensures IsRound(s, s.nodes[m].of)
    ensures Inv(Next(s, OnOutcome(m, b))) <==> Dead(s, s.nodes[m].of)
  {
    var r := s.nodes[m].of;
    assert NodeOk(s, m) && RoundOk(s, r);
    if Dead(s, r) {
      OnOutcomeInv(s, OnOutcome(m, b));
    } else {
      LiveRoundBroken(s, m, b);
    }
  }

  lemma LiveRoundBroken(s: State, m: nat, b: nat)
    requires Inv(s) && Enabled(s, OnOutcome(m, b)) && RollsBackOnDoubt(s, m, b)
    requires IsRound(s, s.nodes[m].of) && !Dead(s, s.nodes[m].of)
    ensures !Inv(Next(s, OnOutcome(m, b)))
  {
    var s', r := Next(s, OnOutcome(m, b)), s.nodes[m].of;
    assert NodeOk(s, m) && RoundOk(s, r);
    assert m in s'.rounds[r].returned && s'.rounds[r].decision == s.rounds[r].decision;
    if Inv(s') {
      assert RoundOk(s', r) && Doomed(s', r);
      var i: nat :| Out(s', r, i);
      assert Out(s, r, i);
    }
  }

  /** What the round's coordinator, as it is now, tells about it: it has left Compact, and is on an older generation
      or keeps one at this generation. */
  predicate CoordinatorGaveUp(s: State, m: nat)
    requires IsNode(s, m) && IsRound(s, s.nodes[m].of) && IsNode(s, s.rounds[s.nodes[m].of].coord)
  {
    var n, c := s.nodes[m], s.nodes[s.rounds[s.nodes[m].of].coord];
    c.coord != Some(n.of) && (c.gen < n.gen || (c.gen == n.gen && c.prev))
  }

  /** When a member in doubt may roll back, whatever answers it has recorded: exactly when the coordinator has given
      up, or is still at it with a member already out. */
  lemma RollbackRightIff(s: State, m: nat)
    requires Inv(s) && InDoubt(s, m)
    ensures
      var r := s.nodes[m].of;
      && IsRound(s, r) && IsNode(s, s.rounds[r].coord)
      && (Dead(s, r) <==> CoordinatorGaveUp(s, m) || (s.nodes[s.rounds[r].coord].coord == Some(r) && Doomed(s, r)))
  {
    var r := s.nodes[m].of;
    assert NodeOk(s, m) && RoundOk(s, r) && NodeOk(s, s.rounds[r].coord);
  }

  /** What the coordinator said in this round settles it: kept means the round is dead. An answer left from an earlier
      round settles nothing (ClusterFailures, LeftoverAnswersBreakAgreement). */
  lemma FreshAnswerRightIffKept(s: State, m: nat, b: nat)
    requires Inv(s) && Enabled(s, OnOutcome(m, b)) && RollsBackOnDoubt(s, m, b)
    requires IsRound(s, s.nodes[m].of) && s.rounds[s.nodes[m].of].coord != m
    requires
      var n := Recorded(s.nodes[m], b, StatusOf(s.nodes[b], s.nodes[m]));
      n.asked.value[s.rounds[n.of].coord].during == n.of
    ensures
      var n := Recorded(s.nodes[m], b, StatusOf(s.nodes[b], s.nodes[m]));
      && s.rounds[n.of].decision != Running
      && (n.asked.value[s.rounds[n.of].coord].kept <==> Dead(s, n.of))
  {
    RecordedInv(s, m, b);
    var n := Recorded(s.nodes[m], b, StatusOf(s.nodes[b], s.nodes[m]));
    var s1 := SetNode(s, m, n);
    assert NodeOk(s1, m);
    assert AnswerOk(s1, n, m, s.rounds[n.of].coord, n.asked.value[s.rounds[n.of].coord]);
  }

  /** A misleading answer needs overlapping rounds: the answering peer is in some other rotation
      while the asker's has not ended. */
  lemma MisleadingNeedsOverlap(s: State, m: nat, b: nat)
    requires Inv(s) && Enabled(s, OnOutcome(m, b))
    requires
      var a := StatusOf(s.nodes[b], s.nodes[m]);
      a.inDoubt && !a.kept && a.gen == s.nodes[m].gen
    ensures s.nodes[b].part.Some? && s.nodes[b].part.value.round.Some?
    ensures s.nodes[b].part.value.round.value != s.nodes[m].of
    ensures IsCommitted(s, s.nodes[m].of)
  {
    assert NodeOk(s, m) && NodeOk(s, b) && RoundOk(s, s.nodes[m].of);
  }
}
