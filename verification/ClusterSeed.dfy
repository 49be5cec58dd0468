/** The new generation is exactly the seed: until a round is decided, nothing else gets into the generation its
    members have activated. */
module ClusterSeed {
  import opened Prelude
  import opened Cluster
  import opened ClusterProof
  import opened ClusterCut
  import opened ClusterTheorems

  function SeedOf(x: Round): set<Block> { if x.genesis.Some? then {x.genesis.value} else {} }

  /** The round is under way and may still commit. */
  ghost predicate Open(s: State, r: nat)
    requires IsRound(s, r)
  {
    s.rounds[r].decision == Running && s.rounds[r].switched && !Doomed(s, r)
  }

  ghost predicate SeedOnly(s: State, r: nat)
    requires IsRound(s, r)
  {
    Open(s, r) ==>
      forall i: nat :: IsNode(s, i) && InRound(s.nodes[i], r) ==> s.nodes[i].have <= SeedOf(s.rounds[r])
  }

  ghost predicate SeedInv(s: State) { forall r: nat :: IsRound(s, r) ==> SeedOnly(s, r) }

  /** Whoever is on the new generation of an open round is in that round. */
  lemma AheadInRound(s: State, r: nat, b: nat)
    requires Inv(s) && IsRound(s, r) && Open(s, r) && IsNode(s, b) && s.nodes[b].gen == s.base + 1
    ensures InRound(s.nodes[b], r)
  {
    assert NodeOk(s, b) && RoundOk(s, r);
    if b != s.rounds[r].coord { assert !Out(s, r, b); }
  }

  lemma InRoundAhead(s: State, r: nat, m: nat)
    requires Inv(s) && IsRound(s, r) && Open(s, r) && IsNode(s, m) && InRound(s.nodes[m], r)
    ensures s.nodes[m].gen == s.base + 1
  {
    assert NodeOk(s, m);
  }

  /** An open round was open before, or has just been cut. */
  lemma WasOpen(s: State, a: Action, r: nat)
    requires Inv(s) && Enabled(s, a) && IsRound(Next(s, a), r) && Open(Next(s, a), r)
    ensures IsRound(s, r)
    ensures Open(s, r) || (a.Cut? && s.nodes[a.c].coord == Some(r) && !s.rounds[r].switched)
  {
    NewRoundUnswitched(s, a, r);
    assert RoundOk(s, r);
    if s.rounds[r].switched {
      if s.rounds[r].decision != Running {
        CoordsRun(s);
        DecisionsAreFinal(s, a, r);
      }
      if Doomed(s, r) {
        var m: nat :| Out(s, r, m);
        OutStays(s, a, r, m);
      }
    } else {
      OnlyCutSwitches(s, a, r);
    }
  }

  lemma NewRoundUnswitched(s: State, a: Action, r: nat)
    requires Enabled(s, a) && IsRound(Next(s, a), r) && Next(s, a).rounds[r].switched
    ensures IsRound(s, r)
  {}

  lemma OnlyCutSwitches(s: State, a: Action, r: nat)
    requires Enabled(s, a) && IsRound(s, r) && !s.rounds[r].switched
    requires IsRound(Next(s, a), r) && Next(s, a).rounds[r].switched
    ensures a.Cut? && s.nodes[a.c].coord == Some(r)
  {}

  /** A node in the round after the step was in it before with the same blocks, enters it with none, or is told of
      a block by a node on the same generation. */
  lemma BlocksStep(s: State, a: Action, i: nat, r: nat)
    requires Inv(s) && Enabled(s, a) && !a.Cut? && IsNode(s, i)
    requires IsNode(Next(s, a), i) && InRound(Next(s, a).nodes[i], r)
    ensures var n, n' := s.nodes[i], Next(s, a).nodes[i];
      || n'.have == {}
      || (InRound(n, r) && n'.have == n.have)
      || (InRound(n, r) && a.Gossip? && a.m == i && n'.have == n.have + {a.x})
  {
    if a.OnOutcome? || a.OnDecision? || a.Abandon? { SettledBlocksStep(s, a, i, r); }
  }

  lemma SettledBlocksStep(s: State, a: Action, i: nat, r: nat)
    requires Enabled(s, a) && (a.OnOutcome? || a.OnDecision? || a.Abandon?)
    requires IsNode(s, i) && IsNode(Next(s, a), i) && InRound(Next(s, a).nodes[i], r)
    ensures InRound(s.nodes[i], r) && Next(s, a).nodes[i].have == s.nodes[i].have
  {}

  lemma GenesisKept(s: State, a: Action, r: nat)
    requires Enabled(s, a) && IsRound(s, r) && !(a.Cut? && s.nodes[a.c].coord == Some(r))
    ensures IsRound(Next(s, a), r) && Next(s, a).rounds[r].genesis == s.rounds[r].genesis
  {}

  lemma OpenStep(s: State, a: Action, r: nat)
    requires Inv(s) && SeedInv(s) && Enabled(s, a) && !a.Cut? && IsRound(s, r) && Open(s, r) && IsRound(Next(s, a), r)
    ensures SeedOnly(Next(s, a), r)
  {
    var s' := Next(s, a);
    GenesisKept(s, a, r);
    assert SeedOnly(s, r);
    forall i: nat | IsNode(s', i) && InRound(s'.nodes[i], r) ensures s'.nodes[i].have <= SeedOf(s'.rounds[r]) {
      NodesKept(s, a);
      BlocksStep(s, a, i, r);
      if InRound(s.nodes[i], r) && a.Gossip? && a.m == i {
        InRoundAhead(s, r, i);
        AheadInRound(s, r, a.b);
      }
    }
  }

  lemma NodesKept(s: State, a: Action)
    requires Enabled(s, a)
    ensures |Next(s, a).nodes| == |s.nodes|
  {}

  /** The coordinator enters its round first, with the seed. */
  lemma CutStep(s: State, a: Action, r: nat)
    requires Inv(s) && SeedInv(s) && a.Cut? && Enabled(s, a) && IsRound(s, r)
    requires Open(s, r) || (s.nodes[a.c].coord == Some(r) && !s.rounds[r].switched)
    ensures SeedOnly(Next(s, a), r)
  {
    var s' := Next(s, a);
    assert NodeOk(s, a.c) && RoundOk(s, r) && SeedOnly(s, r);
    forall i: nat | IsNode(s', i) && InRound(s'.nodes[i], r) ensures s'.nodes[i].have <= SeedOf(s'.rounds[r]) {
      assert NodeOk(s, i);
    }
  }

  lemma SeedStep(s: State, a: Action)
    requires Inv(s) && SeedInv(s) && Enabled(s, a)
    ensures SeedInv(Next(s, a))
  {
    var s' := Next(s, a);
    forall r: nat | IsRound(s', r) ensures SeedOnly(s', r) {
      if Open(s', r) {
        WasOpen(s, a, r);
        if a.Cut? { CutStep(s, a, r); } else { OpenStep(s, a, r); }
      }
    }
  }

  lemma {:induction false} SeedRun(run: seq<State>, acts: seq<Action>, i: nat)
    requires IsRun(run, acts) && i < |run|
    ensures SeedInv(run[i])
  {
    if i > 0 {
      SeedRun(run, acts, i - 1);
      RunInv(run, acts, i - 1);
      SeedStep(run[i - 1], acts[i - 1]);
    }
  }

  /** When done is broadcast, what every member has in the new generation is the seed and nothing else: no block of
      an aborted round at the same generation number has slipped in. */
  lemma NewGenerationIsSeed(run: seq<State>, acts: seq<Action>, i: nat, c: nat, m: nat)
    requires IsRun(run, acts) && i < |acts| && acts[i] == Done(c) && IsNode(run[i], m)
    ensures run[i].nodes[m].have == SeedOf(MyRound(run[i], c))
  {
    var s, q := run[i], run[i].nodes[c].coord.value;
    RunInv(run, acts, i);
    SeedRun(run, acts, i);
    DoneStep(s, c, m);
    DoneMeansAllInRound(s, c);
    assert NodeOk(s, c) && RoundOk(s, q) && SeedOnly(s, q);
    assert Open(s, q) by {
      forall k: nat | Others(s, c, k) ensures k in s.rounds[q].activated {
        assert InRound(s.nodes[k], q) && NodeOk(s, k);
      }
    }
  }
}
