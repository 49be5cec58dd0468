/** Safety of the compaction protocol, over every run. */
module ClusterProof {
  import opened Prelude
  import opened Cluster

  // ---- the control invariant ----

  /** What a recorded answer of the round's own coordinator tells. */
  predicate AnswerOk(s: State, n: Node, i: nat, j: nat, a: Answer) {
    && IsRound(s, a.during) && i in s.rounds[a.during].activated
    && (n.prev && a.during == n.of && j == s.rounds[n.of].coord && j != i ==>
          && s.rounds[n.of].decision != Running
          && (a.inDoubt && a.gen == n.gen ==> (a.kept <==> !IsCommitted(s, n.of))))
  }

  ghost predicate NodeOk(s: State, i: nat)
    requires IsNode(s, i)
  {
    var n := s.nodes[i];
    && (!n.prev ==> n.gen == s.base)
    && (n.prev ==>
          && IsRound(s, n.of) && i in s.rounds[n.of].activated && n.part.Some?
          && n.gen == (if IsCommitted(s, n.of) then s.base else s.base + 1)
          && (IsCommitted(s, n.of) ==> n.of == s.last))
    && (n.part.Some? && n.part.value.phase == Switched ==>
          && n.prev && n.coord.None?
          && (n.part.value.round.Some? ==> n.part.value.round.value == n.of))
    && (n.coord.None? && n.part.Some? && n.part.value.phase == Prepared ==>
          && !n.prev && n.part.value.round.Some? && IsRound(s, n.part.value.round.value)
          && i !in s.rounds[n.part.value.round.value].activated
          && i != s.rounds[n.part.value.round.value].coord)
    && (n.coord.Some? ==>
          && IsRound(s, n.coord.value)
          && var x := s.rounds[n.coord.value];
             && x.coord == i && x.decision == Running
             && n.part == Some(Part(n.coord, Prepared))
             && (n.prev <==> x.switched) && (n.prev ==> n.of == n.coord.value))
    && (forall r :: r in n.waits ==> IsRound(s, r) && i in s.rounds[r].activated)
    && (n.asked.Some? ==>
          forall j :: j in n.asked.value ==> AnswerOk(s, n, i, j, n.asked.value[j]))
  }

  ghost predicate RoundOk(s: State, r: nat)
    requires IsRound(s, r)
  {
    var x := s.rounds[r];
    && IsNode(s, x.coord) && |x.seen| == |s.nodes|
    && (x.decision == Running ==> s.nodes[x.coord].coord == Some(r))
    && (!x.switched ==> x.activated == {})
    && (x.switched ==> x.coord in x.activated)
    && (x.switched || x.stable >= 2 ==> forall m: nat :: Others(s, x.coord, m) ==> x.seen[m] == x.iters)
    && (x.stable >= 2 ==> !x.collecting)
    && (forall m: nat :: m in x.replies ==> Others(s, x.coord, m) && x.seen[m] == x.iters)
    && x.ready <= x.activated
    && (forall m: nat :: m in x.activated ==> IsNode(s, m))
    && (forall m: nat :: IsNode(s, m) ==> x.seen[m] <= x.iters)
    && (x.decision == Running && x.switched && !Doomed(s, r) ==>
          forall m: nat :: m in x.activated ==> InRound(s.nodes[m], r))
    && (x.decision == Committed ==>
          && x.switched && !InRound(s.nodes[x.coord], r)
          && forall m: nat :: IsNode(s, m) ==> m in x.activated)
    && (x.purged != {} ==> x.decision == Committed)
    && (x.returned != {} ==> x.decision != Committed && (x.decision == Running ==> x.switched && Doomed(s, r)))
  }

  ghost predicate Inv(s: State) {
    && |s.nodes| >= 1
    && (forall i: nat :: IsNode(s, i) ==> NodeOk(s, i))
    && (forall r: nat :: IsRound(s, r) ==> RoundOk(s, r))
  }

  lemma InitInv(s: State)
    requires Init(s)
    ensures Inv(s)
  {}

  // ---- preservation ----

  /** Round r looks the same to node i. */
  predicate SameTo(s: State, s': State, r: nat, i: nat)
    requires IsRound(s, r) && IsRound(s', r)
  {
    var x, x' := s.rounds[r], s'.rounds[r];
    && x.coord == x'.coord && x.decision == x'.decision
    && (IsNode(s, i) && s.nodes[i].coord == Some(r) ==> x.switched == x'.switched)
    && (i in x.activated <==> i in x'.activated)
  }

  ghost predicate Extends(s: State, s': State) {
    |s.nodes| == |s'.nodes| && |s.rounds| <= |s'.rounds| && s.base == s'.base && s.last == s'.last
  }

  lemma NodeKept(s: State, s': State, i: nat)
    requires IsNode(s, i) && NodeOk(s, i) && Extends(s, s') && s'.nodes[i] == s.nodes[i]
    requires forall r: nat :: IsRound(s, r) ==> SameTo(s, s', r, i)
    ensures NodeOk(s', i)
  {
    var n := s.nodes[i];
    assert forall r: nat :: IsRound(s, r) ==> SameTo(s, s', r, i);
    if n.prev { assert SameTo(s, s', n.of, i); }
    if n.coord.Some? { assert SameTo(s, s', n.coord.value, i); }
    if n.asked.Some? {
      forall j | j in n.asked.value ensures AnswerOk(s', n, i, j, n.asked.value[j]) {
        assert SameTo(s, s', n.asked.value[j].during, i);
      }
    }
    forall r | r in n.waits ensures IsRound(s', r) && i in s'.rounds[r].activated {
      assert SameTo(s, s', r, i);
    }
  }

  lemma DoomStays(s: State, s': State, r: nat)
    requires IsRound(s, r) && IsRound(s', r) && |s.nodes| == |s'.nodes| && Doomed(s, r)
    requires s'.rounds[r].coord == s.rounds[r].coord
    requires forall i: nat :: Out(s, r, i) ==> Out(s', r, i)
    ensures Doomed(s', r)
  {
    var m: nat :| Out(s, r, m);
    assert Out(s', r, m);
  }

  /** A round whose record changed at most in its history keeps its invariant, provided nobody
      enters it, nobody leaves it while it may still commit, and its history tells the truth. */
  lemma RoundKept(s: State, s': State, r: nat)
    requires IsRound(s, r) && RoundOk(s, r) && Extends(s, s')
    requires s'.rounds[r] == s.rounds[r].(purged := s'.rounds[r].purged, returned := s'.rounds[r].returned)
    requires s'.rounds[r].purged != {} ==> s.rounds[r].decision == Committed
    requires s'.rounds[r].returned != {} ==>
      s.rounds[r].decision != Committed && (s.rounds[r].decision == Running ==> s.rounds[r].switched && Doomed(s, r))
    requires s.rounds[r].decision == Running ==> s'.nodes[s.rounds[r].coord].coord == Some(r)
    requires forall i: nat :: IsNode(s, i) ==>
      && (InRound(s'.nodes[i], r) ==> InRound(s.nodes[i], r))
      && (s.rounds[r].decision == Running && !Doomed(s, r) && InRound(s.nodes[i], r) ==> InRound(s'.nodes[i], r))
      && (PreparedIn(s'.nodes[i], r) && i !in s.rounds[r].activated && i != s.rounds[r].coord ==>
            PreparedIn(s.nodes[i], r))
    ensures RoundOk(s', r)
  {
    if Doomed(s, r) { DoomStays(s, s', r); }
  }

  lemma StartInv(s: State, a: Action)
    requires Inv(s) && a.Start? && Enabled(s, a)
    ensures Inv(Next(s, a))
  {
    var s' := Next(s, a);
    forall i: nat | IsNode(s', i) ensures NodeOk(s', i) {
      if i != a.c { NodeKept(s, s', i); } else { assert NodeOk(s, i); }
    }
    forall r: nat | IsRound(s', r) ensures RoundOk(s', r) {
      if r < |s.rounds| { RoundKept(s, s', r); }
    }
  }

  lemma PrepareInv(s: State, a: Action)
    requires Inv(s) && a.Prepare? && Enabled(s, a)
    ensures Inv(Next(s, a))
  {
    var s' := Next(s, a);
    forall i: nat | IsNode(s', i) ensures NodeOk(s', i) { NodeKept(s, s', i); }
    forall r: nat | IsRound(s', r) ensures RoundOk(s', r) {
      assert RoundOk(s, r);
      if r != s.nodes[a.c].coord.value { RoundKept(s, s', r); }
    }
  }

  /** Changing node m's memory or blocks but not its standing. */
  lemma SetNodeInv(s: State, s': State, m: nat)
    requires Inv(s) && IsNode(s, m) && Extends(s, s') && s'.rounds == s.rounds
    requires s'.nodes == s.nodes[m := s'.nodes[m]] && NodeOk(s', m)
    requires s'.nodes[m].coord == s.nodes[m].coord && s'.nodes[m].prev == s.nodes[m].prev
    requires s'.nodes[m].of == s.nodes[m].of && s'.nodes[m].part == s.nodes[m].part
    ensures Inv(s')
  {
    forall i: nat | IsNode(s', i) ensures NodeOk(s', i) { if i != m { NodeKept(s, s', i); } }
    forall r: nat | IsRound(s', r) ensures RoundOk(s', r) { RoundKept(s, s', r); }
  }

  /** finish, on a node whose activated round is known to have the matching fate. */
  lemma SettleInv(s: State, m: nat, commit: bool)
    requires Inv(s) && IsNode(s, m) && s.nodes[m].part.Some? && s.nodes[m].coord.None?
    requires s.nodes[m].prev && commit ==> IsCommitted(s, s.nodes[m].of)
    requires s.nodes[m].prev && !commit ==>
      && !IsCommitted(s, s.nodes[m].of)
      && (s.rounds[s.nodes[m].of].decision == Running ==> Doomed(s, s.nodes[m].of))
    ensures Inv(Settle(s, m, commit))
  {
    var n, s' := s.nodes[m], Settle(s, m, commit);
    assert NodeOk(s, m);
    forall i: nat | IsNode(s', i) ensures NodeOk(s', i) { if i != m { NodeKept(s, s', i); } }
    forall r: nat | IsRound(s', r) ensures RoundOk(s', r) {
      assert RoundOk(s, r);
      RoundKept(s, s', r);
    }
  }

  lemma AskInv(s: State, a: Action)
    requires Inv(s) && a.Ask? && Enabled(s, a)
    ensures Inv(Next(s, a))
  {
    assert NodeOk(s, a.m);
    SetNodeInv(s, Next(s, a), a.m);
  }

  lemma AbandonInv(s: State, a: Action)
    requires Inv(s) && a.Abandon? && Enabled(s, a)
    ensures Inv(Next(s, a))
  {
    assert NodeOk(s, a.m);
    SettleInv(s, a.m, false);
  }

  lemma OnDecisionInv(s: State, a: Action)
    requires Inv(s) && a.OnDecision? && Enabled(s, a)
    ensures Inv(Next(s, a))
  {
    var n := s.nodes[a.m];
    assert NodeOk(s, a.m);
    if n.part.Some? && n.part.value.round == Some(a.r) {
      SettleInv(s, a.m, s.rounds[a.r].decision == Committed);
    }
  }

  /** A settled peer is on the latest committed generation, so its answer is conclusive; and
      when everybody is in doubt the coordinator's own answer is. */
  lemma VerdictIsRight(s: State, m: nat, b: nat)
    requires Inv(s) && Sound(s, OnOutcome(m, b))
    ensures
      var n, a := s.nodes[m], StatusOf(s.nodes[b], s.nodes[m]);
      && n.prev && IsRound(s, n.of)
      && match Resolve(Recorded(n, b, a), m, a, |s.nodes|)
         case Commits => IsCommitted(s, n.of)
         case RollsBack => Dead(s, n.of)
         case Waits => true
  {
    var n, a := s.nodes[m], StatusOf(s.nodes[b], s.nodes[m]);
    assert NodeOk(s, m) && NodeOk(s, b) && RoundOk(s, n.of);
    if !a.inDoubt && s.rounds[n.of].decision == Running && b !in s.rounds[n.of].activated {
      assert Out(s, n.of, b);
    }
  }

  /** The answer a node may rely on when it rolls back because everybody is in doubt: its round's coordinator
      answered during this very round, and really kept a previous generation. */
  predicate Relied(s: State, m: nat, b: nat)
    requires InDoubt(s, m) && IsNode(s, b)
  {
    var n := Recorded(s.nodes[m], b, StatusOf(s.nodes[b], s.nodes[m]));
    && IsRound(s, n.of) && n.asked.Some?
    && var c := s.rounds[n.of].coord;
       c == m || (c in n.asked.value && n.asked.value[c].during == n.of && n.asked.value[c].kept)
  }

  lemma ReliedIsDead(s: State, m: nat, b: nat)
    requires Inv(s) && Enabled(s, OnOutcome(m, b)) && RollsBackOnDoubt(s, m, b) && Relied(s, m, b)
    ensures Dead(s, s.nodes[m].of)
  {
    var n := s.nodes[m];
    var c := s.rounds[n.of].coord;
    assert NodeOk(s, m) && NodeOk(s, b) && RoundOk(s, n.of) && NodeOk(s, c);
    if c != m && c != b { assert AnswerOk(s, n, m, c, n.asked.value[c]); }
  }

  lemma RecordedInv(s: State, m: nat, b: nat)
    requires Inv(s) && Enabled(s, OnOutcome(m, b))
    ensures Inv(SetNode(s, m, Recorded(s.nodes[m], b, StatusOf(s.nodes[b], s.nodes[m]))))
  {
    var n := s.nodes[m];
    assert NodeOk(s, m) && NodeOk(s, b) && RoundOk(s, n.of);
    SetNodeInv(s, SetNode(s, m, Recorded(n, b, StatusOf(s.nodes[b], n))), m);
  }

  lemma OnOutcomeInv(s: State, a: Action)
    requires Inv(s) && a.OnOutcome? && Sound(s, a)
    ensures Inv(Next(s, a))
  {
    var n, ans := s.nodes[a.m], StatusOf(s.nodes[a.b], s.nodes[a.m]);
    var s1 := SetNode(s, a.m, Recorded(n, a.b, ans));
    RecordedInv(s, a.m, a.b);
    VerdictIsRight(s, a.m, a.b);
    if Doomed(s, n.of) { DoomStays(s, s1, n.of); }
    match Resolve(s1.nodes[a.m], a.m, ans, |s.nodes|) {
      case Commits => SettleInv(s1, a.m, true);
      case RollsBack => SettleInv(s1, a.m, false);
      case Waits =>
    }
  }

  /** Past phase 1 no prepare of the round is outstanding, so nobody joins it late. */
  lemma OnPrepareInv(s: State, a: Action)
    requires Inv(s) && a.OnPrepare? && Enabled(s, a)
    ensures Inv(Next(s, a))
  {
    OnPrepareNodes(s, a);
    var s' := Next(s, a);
    forall r: nat | IsRound(s', r) ensures RoundOk(s', r) {
      if r == a.r { OnPrepareRound(s, a); } else { OnPrepareOther(s, a, r); }
    }
  }

  lemma OnPrepareNodes(s: State, a: Action)
    requires Inv(s) && a.OnPrepare? && Enabled(s, a)
    ensures forall i: nat :: IsNode(Next(s, a), i) ==> NodeOk(Next(s, a), i)
  {
    assert RoundOk(s, a.r) && !s.rounds[a.r].switched;
    PreparedNodes(s, Next(s, a), a.m, a.r);
  }

  lemma PreparedNodes(s: State, s': State, m: nat, r: nat)
    requires Inv(s) && IsNode(s, m) && IsRound(s, r) && Extends(s, s') && s.nodes[m].coord.None?
    requires s.rounds[r].coord != m && !s.rounds[r].switched && s'.rounds == s.rounds[r := s'.rounds[r]]
    requires SameRecord(s.rounds[r], s'.rounds[r])
    requires s'.nodes == s.nodes ||
      (AcceptsPrepare(s.nodes[m], r) &&
       s'.nodes == s.nodes[m := s.nodes[m].(part := Some(Part(Some(r), Prepared)))])
    ensures forall i: nat :: IsNode(s', i) ==> NodeOk(s', i)
  {
    assert RoundOk(s, r);
    forall i: nat | IsNode(s', i) ensures NodeOk(s', i) {
      if s'.nodes[i] == s.nodes[i] { NodeKept(s, s', i); } else { PreparedNode(s, s', m, r); }
    }
  }

  predicate SameRecord(x: Round, x': Round) {
    x'.coord == x.coord && x'.decision == x.decision && x'.switched == x.switched && x'.activated == x.activated
  }

  lemma PreparedNode(s: State, s': State, m: nat, r: nat)
    requires IsNode(s, m) && NodeOk(s, m) && IsRound(s, r) && Extends(s, s') && s.nodes[m].coord.None?
    requires s.rounds[r].coord != m && m !in s.rounds[r].activated && AcceptsPrepare(s.nodes[m], r)
    requires s'.rounds == s.rounds[r := s'.rounds[r]] && SameRecord(s.rounds[r], s'.rounds[r])
    requires s'.nodes[m] == s.nodes[m].(part := Some(Part(Some(r), Prepared)))
    ensures NodeOk(s', m)
  {
    var n := s'.nodes[m];
    if n.asked.Some? {
      forall j | j in n.asked.value ensures AnswerOk(s', n, m, j, n.asked.value[j]) {
        assert AnswerOk(s, s.nodes[m], m, j, n.asked.value[j]);
      }
    }
  }

  lemma OnPrepareOther(s: State, a: Action, r: nat)
    requires Inv(s) && a.OnPrepare? && Enabled(s, a) && IsRound(s, r) && r != a.r
    ensures RoundOk(Next(s, a), r)
  {
    var s' := Next(s, a);
    assert NodeOk(s, a.m) && RoundOk(s, r);
    assert s'.rounds[r] == s.rounds[r];
    RoundKept(s, s', r);
  }

  lemma OnPrepareRound(s: State, a: Action)
    requires Inv(s) && a.OnPrepare? && Enabled(s, a)
    ensures RoundOk(Next(s, a), a.r)
  {
    var s' := Next(s, a);
    assert NodeOk(s, a.m) && RoundOk(s, a.r);
    var x, x' := s.rounds[a.r], s'.rounds[a.r];
    assert !x.switched && x.stable < 2;
    forall m: nat | m in x'.replies ensures Others(s', x'.coord, m) && x'.seen[m] == x'.iters {
      if m != a.m { assert m in x.replies; }
    }
  }

  lemma EndIterationInv(s: State, a: Action)
    requires Inv(s) && a.EndIteration? && Enabled(s, a)
    ensures Inv(Next(s, a))
  {
    var s' := Next(s, a);
    var q := s.nodes[a.c].coord.value;
    assert RoundOk(s, q);
    var x, x' := s.rounds[q], s'.rounds[q];
    forall m: nat | x'.stable > 0 && Others(s', x'.coord, m) ensures x'.seen[m] == x'.iters {
      assert Good(x, m);
    }
    forall i: nat | IsNode(s', i) ensures NodeOk(s', i) { NodeKept(s, s', i); }
    forall r: nat | IsRound(s', r) ensures RoundOk(s', r) {
      if r != q { RoundKept(s, s', r); }
    }
  }

  lemma CutInv(s: State, a: Action)
    requires Inv(s) && a.Cut? && Enabled(s, a)
    ensures Inv(Next(s, a))
  {
    var s' := Next(s, a);
    var q := s.nodes[a.c].coord.value;
    assert NodeOk(s, a.c) && RoundOk(s, q);
    forall i: nat | IsNode(s', i) ensures NodeOk(s', i) { 
      if i != a.c { NodeKept(s, s', i); }
    }
    forall r: nat | IsRound(s', r) ensures RoundOk(s', r) {
      if r != q { RoundKept(s, s', r); }
    }
  }

  lemma OnSwitchInv(s: State, a: Action)
    requires Inv(s) && a.OnSwitch? && Enabled(s, a)
    ensures Inv(Next(s, a))
  {
    var s', n := Next(s, a), s.nodes[a.m];
    assert NodeOk(s, a.m) && RoundOk(s, a.r);
    if PreparedIn(n, a.r) {
      OnSwitchNodes(s, a);
      forall r: nat | IsRound(s', r) ensures RoundOk(s', r) { OnSwitchRound(s, a, r); }
    } else if n.part == Some(Part(Some(a.r), Switched)) {
      SetNodeInv(s, s', a.m);
    }
  }

  lemma OnSwitchNodes(s: State, a: Action)
    requires Inv(s) && a.OnSwitch? && Enabled(s, a) && PreparedIn(s.nodes[a.m], a.r)
    ensures forall i: nat :: IsNode(Next(s, a), i) ==> NodeOk(Next(s, a), i)
  {
    var s' := Next(s, a);
    OnSwitchNode(s, a);
    forall i: nat | IsNode(s', i) ensures NodeOk(s', i) { if i != a.m { NodeKept(s, s', i); } }
  }

  lemma OnSwitchNode(s: State, a: Action)
    requires Inv(s) && a.OnSwitch? && Enabled(s, a) && PreparedIn(s.nodes[a.m], a.r)
    ensures NodeOk(Next(s, a), a.m)
  {
    assert NodeOk(s, a.m) && RoundOk(s, a.r);
  }

  lemma OnSwitchRound(s: State, a: Action, r: nat)
    requires Inv(s) && a.OnSwitch? && Enabled(s, a) && PreparedIn(s.nodes[a.m], a.r) && IsRound(s, r)
    ensures RoundOk(Next(s, a), r)
  {
    var s' := Next(s, a);
    assert NodeOk(s, a.m) && RoundOk(s, r);
    if r != a.r { RoundKept(s, s', r); } else if Doomed(s, r) { DoomStays(s, s', r); }
  }

  lemma SendReadyInv(s: State, a: Action)
    requires Inv(s) && a.SendReady? && Enabled(s, a)
    ensures Inv(Next(s, a))
  {
    var n := s.nodes[a.m];
    assert NodeOk(s, a.m) && RoundOk(s, a.r);
    var s1 := SetNode(s, a.m, n.(waits := n.waits - {a.r}));
    SetNodeInv(s, s1, a.m);
    ReadyInv(s1, a.r, a.m);
  }

  lemma ReadyInv(s: State, r: nat, m: nat)
    requires Inv(s) && IsRound(s, r) && m in s.rounds[r].activated
    ensures Inv(SetRound(s, r, s.rounds[r].(ready := s.rounds[r].ready + {m})))
  {
    var s' := SetRound(s, r, s.rounds[r].(ready := s.rounds[r].ready + {m}));
    forall i: nat | IsNode(s', i) ensures NodeOk(s', i) { NodeKept(s, s', i); }
    forall q: nat | IsRound(s', q) ensures RoundOk(s', q) { SendReadyRound(s, s', r, m, q); }
  }

  lemma SendReadyRound(s: State, s': State, q: nat, m: nat, r: nat)
    requires IsRound(s, q) && IsRound(s, r) && RoundOk(s, r) && m in s.rounds[q].activated
    requires s' == SetRound(s, q, s.rounds[q].(ready := s.rounds[q].ready + {m}))
    ensures RoundOk(s', r)
  {
    if r != q { RoundKept(s, s', r); } else if Doomed(s, r) { DoomStays(s, s', r); }
  }

  /** done is broadcast only when every other member is inside the round. */
  lemma DoneMeansAllInRound(s: State, c: nat)
    requires Inv(s) && Enabled(s, Done(c))
    ensures forall m: nat :: IsNode(s, m) ==> InRound(s.nodes[m], s.nodes[c].coord.value)
  {
    var q := s.nodes[c].coord.value;
    assert NodeOk(s, c) && RoundOk(s, q);
    forall m: nat | IsNode(s, m) ensures InRound(s.nodes[m], q) {
      if m != c { assert Others(s, c, m); assert m in s.rounds[q].ready; }
    }
  }

  lemma DoneInv(s: State, a: Action)
    requires Inv(s) && a.Done? && Enabled(s, a)
    ensures Inv(Next(s, a))
  {
    var s' := Next(s, a);
    var q := s.nodes[a.c].coord.value;
    DoneMeansAllInRound(s, a.c);
    assert NodeOk(s, a.c) && RoundOk(s, q);
    forall i: nat | IsNode(s', i) ensures NodeOk(s', i) {
      assert NodeOk(s, i) && InRound(s.nodes[i], q);
      var n := s'.nodes[i];
      if i != a.c && n.asked.Some? {
        forall j | j in n.asked.value ensures AnswerOk(s', n, i, j, n.asked.value[j]) {
          assert AnswerOk(s, s.nodes[i], i, j, n.asked.value[j]);
        }
      }
    }
    forall r: nat | IsRound(s', r) ensures RoundOk(s', r) {
      assert RoundOk(s, r);
      forall i: nat | IsNode(s, i) ensures i in s.rounds[q].activated { assert NodeOk(s, i); }
    }
  }

  lemma AbortInv(s: State, a: Action)
    requires Inv(s) && a.Abort? && Enabled(s, a)
    ensures Inv(Next(s, a))
  {
    var s' := Next(s, a);
    var q := s.nodes[a.c].coord.value;
    assert NodeOk(s, a.c) && RoundOk(s, q);
    forall i: nat | IsNode(s', i) ensures NodeOk(s', i) { if i != a.c { EndedKept(s, s', i, q); } }
    forall r: nat | IsRound(s', r) ensures RoundOk(s', r) {
      if r != q { RoundKept(s, s', r); }
    }
  }

  lemma CrashInv(s: State, a: Action)
    requires Inv(s) && a.Crash? && Enabled(s, a)
    ensures Inv(Next(s, a))
  {
    var s' := DoCrash(s, a.m);
    forall i: nat | IsNode(s', i) ensures NodeOk(s', i) { CrashNode(s, a.m, i); }
    forall r: nat | IsRound(s', r) ensures RoundOk(s', r) { CrashRoundOk(s, a.m, r); }
  }

  lemma CrashNode(s: State, m: nat, i: nat)
    requires Inv(s) && IsNode(s, m) && IsNode(s, i)
    ensures NodeOk(DoCrash(s, m), i)
  {
    var s', n := DoCrash(s, m), s.nodes[m];
    assert NodeOk(s, m) && NodeOk(s, i);
    if i != m { if n.coord.Some? { EndedKept(s, s', i, n.coord.value); } else { NodeKept(s, s', i); } }
  }

  lemma CrashRoundOk(s: State, m: nat, r: nat)
    requires Inv(s) && IsNode(s, m) && IsRound(s, r)
    ensures RoundOk(DoCrash(s, m), r)
  {
    assert NodeOk(s, m) && RoundOk(s, r);
    if s.nodes[m].coord != Some(r) { RoundKept(s, DoCrash(s, m), r); }
  }

  /** A bystander's view when round q stops without committing. */
  lemma EndedKept(s: State, s': State, i: nat, q: nat)
    requires IsNode(s, i) && NodeOk(s, i) && Extends(s, s') && s'.nodes[i] == s.nodes[i]
    requires IsRound(s, q) && s.rounds[q].decision == Running && s.rounds[q].coord != i
    requires |s'.rounds| == |s.rounds| && s'.rounds[q].decision in {Aborted, Lost}
    requires s'.rounds[q].coord == s.rounds[q].coord && s'.rounds[q].activated == s.rounds[q].activated
    requires forall r: nat :: IsRound(s, r) && r != q ==> s'.rounds[r] == s.rounds[r]
    ensures NodeOk(s', i)
  {
    var n := s.nodes[i];
    if n.asked.Some? {
      forall j | j in n.asked.value ensures AnswerOk(s', n, i, j, n.asked.value[j]) {
        assert AnswerOk(s, n, i, j, n.asked.value[j]);
      }
    }
  }

  lemma BlocksInv(s: State, a: Action)
    requires Inv(s) && (a.Mint? || a.Gossip?) && Enabled(s, a)
    ensures Inv(Next(s, a))
  {
    var s' := Next(s, a);
    assert NodeOk(s, a.m) && s'.nodes[a.m] == s.nodes[a.m].(have := s'.nodes[a.m].have);
    BlocksIrrelevant(s, s', a.m);
    SetNodeInv(s, s', a.m);
  }

  lemma BlocksIrrelevant(s: State, s': State, m: nat)
    requires IsNode(s, m) && NodeOk(s, m) && Extends(s, s') && s'.rounds == s.rounds
    requires s'.nodes[m] == s.nodes[m].(have := s'.nodes[m].have)
    ensures NodeOk(s', m)
  {
    var n, n' := s.nodes[m], s'.nodes[m];
    if n.asked.Some? {
      forall j | j in n.asked.value ensures AnswerOk(s', n', m, j, n'.asked.value[j]) {
        assert AnswerOk(s, n, m, j, n.asked.value[j]);
      }
    }
  }

  lemma StepInv(s: State, a: Action)
    requires Inv(s) && Sound(s, a)
    ensures Inv(Next(s, a))
  {
    match a
    case Start(_, _) => StartInv(s, a);
    case Prepare(_) => PrepareInv(s, a);
    case OnPrepare(_, _, _, _, _) => OnPrepareInv(s, a);
    case EndIteration(_, _, _) => EndIterationInv(s, a);
    case Cut(_, _) => CutInv(s, a);
    case OnSwitch(_, _) => OnSwitchInv(s, a);
    case SendReady(_, _) => SendReadyInv(s, a);
    case Done(_) => DoneInv(s, a);
    case Abort(_) => AbortInv(s, a);
    case Crash(_) => CrashInv(s, a);
    case OnDecision(_, _) => OnDecisionInv(s, a);
    case Abandon(_) => AbandonInv(s, a);
    case Ask(_) => AskInv(s, a);
    case OnOutcome(_, _) => OnOutcomeInv(s, a);
    case Mint(_, _) => BlocksInv(s, a);
    case Gossip(_, _, _) => BlocksInv(s, a);
  }
}
