/** One rotation at a time: when a round starts only once every member is idle, messages between two members keep
    their order, and a member rolls back on doubt only after asking its peers in the round, every run meets the
    condition of module Cluster. */
module ClusterExclusive {
  import opened Prelude
  import opened Cluster
  import opened ClusterProof
  import opened ClusterCut
  import opened ClusterTheorems

  // ---- the discipline ----

  /** The step takes node m into a new round. */
  predicate Activates(s: State, a: Action, m: nat) {
    (a.Cut? && a.c == m) ||
    (a.OnSwitch? && a.m == m && IsNode(s, m) && s.nodes[m].part == Some(Part(Some(a.r), Prepared)))
  }

  /** Node m has not entered a round since it last asked its peers. */
  predicate AskedSince(run: seq<State>, acts: seq<Action>, m: nat, i: nat)
    requires i <= |acts| && |run| == |acts| + 1
  {
    i == 0 ||
    (!Activates(run[i - 1], acts[i - 1], m) && (acts[i - 1] == Ask(m) || AskedSince(run, acts, m, i - 1)))
  }

  /** Rounds do not overlap, and a member rolls back on doubt only when it has asked about its round since it entered
      it. */
  ghost predicate IsExclusiveRun(run: seq<State>, acts: seq<Action>) {
    && |run| == |acts| + 1 && Init(run[0])
    && (forall i :: 0 <= i < |acts| ==> InTurn(run[i], acts[i]) && run[i + 1] == Next(run[i], acts[i]))
    && (forall i :: 0 <= i < |acts| && OnDoubt(run[i], acts[i]) ==> AskedSince(run, acts, acts[i].m, i))
  }

  ghost predicate OnDoubt(s: State, a: Action) { a.OnOutcome? && Enabled(s, a) && RollsBackOnDoubt(s, a.m, a.b) }

  /** All recorded answers were given in the present round. */
  predicate AskedThisRound(n: Node) {
    n.asked.Some? ==> forall j :: j in n.asked.value ==> n.asked.value[j].during == n.of
  }

  ghost predicate Disciplined(s: State, a: Action) {
    InTurn(s, a) && (OnDoubt(s, a) ==> AskedThisRound(s.nodes[a.m]))
  }

  lemma StillThisRound(s: State, a: Action, m: nat)
    requires Enabled(s, a) && IsNode(s, m) && AskedThisRound(s.nodes[m]) && !Activates(s, a, m)
    ensures IsNode(Next(s, a), m) && AskedThisRound(Next(s, a).nodes[m])
  {}

  lemma AskStarts(s: State, m: nat)
    requires Enabled(s, Ask(m))
    ensures AskedThisRound(Next(s, Ask(m)).nodes[m])
  {}

  lemma NodesStay(s: State, a: Action)
    requires Enabled(s, a)
    ensures |Next(s, a).nodes| == |s.nodes|
  {}

  lemma {:induction false} NodeCount(run: seq<State>, acts: seq<Action>, i: nat)
    requires IsExclusiveRun(run, acts) && i < |run|
    ensures |run[i].nodes| == |run[0].nodes|
  {
    if i > 0 {
      NodeCount(run, acts, i - 1);
      NodesStay(run[i - 1], acts[i - 1]);
    }
  }

  /** So whatever a member counts when it handles an answer was said in its present round. */
  lemma {:induction false} AnswersAreOfThisRound(run: seq<State>, acts: seq<Action>, m: nat, i: nat)
    requires IsExclusiveRun(run, acts) && i < |run| && IsNode(run[i], m) && AskedSince(run, acts, m, i)
    ensures AskedThisRound(run[i].nodes[m])
  {
    if i > 0 {
      NodeCount(run, acts, i);
      NodeCount(run, acts, i - 1);
      var s, a := run[i - 1], acts[i - 1];
      if a == Ask(m) {
        AskStarts(s, m);
      } else {
        AnswersAreOfThisRound(run, acts, m, i - 1);
        StillThisRound(s, a, m);
      }
    }
  }

  // ---- what it keeps ----

  /** A round that is not the latest is over: nobody is in it, and nobody can enter it. */
  ghost predicate Over(s: State, r: nat)
    requires IsRound(s, r)
  {
    s.rounds[r].decision != Running &&
    forall m: nat :: IsNode(s, m) ==>
      !InRound(s.nodes[m], r) && (s.rounds[r].switched ==> !PreparedIn(s.nodes[m], r))
  }

  ghost predicate AllReady(s: State, r: nat)
    requires IsRound(s, r)
  {
    s.rounds[r].decision == Committed ==> forall m: nat :: Others(s, s.rounds[r].coord, m) ==> m in s.rounds[r].ready
  }

  /** While a member has still to hear of a commit, the round's coordinator is idle. */
  predicate CoordIdle(s: State, m: nat)
    requires IsNode(s, m)
  {
    var n := s.nodes[m];
    n.prev && IsCommitted(s, n.of) && IsNode(s, s.rounds[n.of].coord) ==> s.nodes[s.rounds[n.of].coord].part.None?
  }

  /** A coordinator that said "indoubt" was keeping a generation. */
  predicate Honest(s: State, m: nat)
    requires IsNode(s, m)
  {
    var n := s.nodes[m];
    n.prev && IsRound(s, n.of) && n.asked.Some? && s.rounds[n.of].coord in n.asked.value ==>
      HonestAnswer(n.asked.value[s.rounds[n.of].coord], n)
  }

  predicate HonestAnswer(a: Answer, n: Node) {
    a.during == n.of && a.inDoubt && a.gen == n.gen ==> a.kept
  }

  ghost predicate Solo(s: State) {
    (forall r: nat :: IsRound(s, r) && r < |s.rounds| - 1 ==> Over(s, r)) &&
    (forall r: nat :: IsRound(s, r) ==> AllReady(s, r)) &&
    (forall m: nat :: IsNode(s, m) ==> CoordIdle(s, m) && Honest(s, m))
  }

  // ---- steps that let nobody into a round ----

  predicate SameRound(x: Round, x': Round) {
    x'.coord == x.coord && x'.switched == x.switched && x.ready <= x'.ready &&
    (x'.decision == x.decision || (x.decision == Running && x'.decision in {Aborted, Lost}))
  }

  /** Node i enters no round, and hears nothing that it did not know. */
  ghost predicate NoEntry(s: State, s': State, i: nat)
    requires IsNode(s, i) && IsNode(s', i)
  {
    var n, n' := s.nodes[i], s'.nodes[i];
    && (n'.prev ==>
          n.prev && n'.of == n.of && n'.gen == n.gen && (n'.asked == n.asked || n'.asked in {None, Some(map[])}))
    && (n.part.None? ==> n'.part.None?)
    && (forall r: nat :: PreparedIn(n', r) ==> PreparedIn(n, r))
  }

  lemma SoloKept(s: State, s': State)
    requires Inv(s) && Solo(s) && |s'.nodes| == |s.nodes| && |s'.rounds| == |s.rounds|
    requires forall r: nat :: IsRound(s, r) ==> SameRound(s.rounds[r], s'.rounds[r])
    requires forall i: nat :: IsNode(s, i) ==> NoEntry(s, s', i)
    ensures Solo(s')
  {
    forall r: nat | IsRound(s', r) ensures AllReady(s', r) && (r < |s'.rounds| - 1 ==> Over(s', r)) {
      assert SameRound(s.rounds[r], s'.rounds[r]) && AllReady(s, r);
      if r < |s.rounds| - 1 { OverKept(s, s', r); }
    }
    forall i: nat | IsNode(s', i) ensures CoordIdle(s', i) && Honest(s', i) { SoloNode(s, s', i); }
  }

  lemma OverKept(s: State, s': State, r: nat)
    requires IsRound(s, r) && IsRound(s', r) && Over(s, r) && |s'.nodes| == |s.nodes|
    requires SameRound(s.rounds[r], s'.rounds[r])
    requires forall i: nat :: IsNode(s, i) ==> NoEntry(s, s', i)
    ensures Over(s', r)
  {
    forall m: nat | IsNode(s', m)
      ensures !InRound(s'.nodes[m], r) && (s'.rounds[r].switched ==> !PreparedIn(s'.nodes[m], r))
    {
      assert NoEntry(s, s', m);
    }
  }

  lemma SoloNode(s: State, s': State, i: nat)
    requires Inv(s) && Solo(s) && |s'.nodes| == |s.nodes| && |s'.rounds| == |s.rounds| && IsNode(s, i)
    requires forall r: nat :: IsRound(s, r) ==> SameRound(s.rounds[r], s'.rounds[r])
    requires forall j: nat :: IsNode(s, j) ==> NoEntry(s, s', j)
    ensures CoordIdle(s', i) && Honest(s', i)
  {
    var n, n' := s.nodes[i], s'.nodes[i];
    assert NoEntry(s, s', i) && CoordIdle(s, i) && Honest(s, i) && NodeOk(s, i);
    if n'.prev {
      assert SameRound(s.rounds[n.of], s'.rounds[n.of]) && RoundOk(s, n.of);
      assert NoEntry(s, s', s.rounds[n.of].coord);
    }
  }

  // ---- the steps ----

  lemma StartSolo(s: State, a: Action)
    requires Inv(s) && Solo(s) && a.Start? && Disciplined(s, a)
    ensures Solo(Next(s, a))
  {
    var s' := Next(s, a);
    forall r: nat | IsRound(s', r) && r < |s'.rounds| - 1 ensures Over(s', r) { assert RoundOk(s, r); }
    forall r: nat | IsRound(s', r) ensures AllReady(s', r) {
      if r < |s.rounds| {
        assert AllReady(s, r);
      }
    }
  }

  /** The latest round's coordinator enters it. */
  lemma CutSolo(s: State, a: Action)
    requires Inv(s) && Solo(s) && a.Cut? && Enabled(s, a)
    ensures Solo(Next(s, a))
  {
    var s', q := Next(s, a), s.nodes[a.c].coord.value;
    assert NodeOk(s, a.c) && RoundOk(s, q);
    EnteredSolo(s, s', a.c, q);
  }

  lemma OnSwitchSolo(s: State, a: Action)
    requires Inv(s) && Solo(s) && a.OnSwitch? && Enabled(s, a)
    ensures Solo(Next(s, a))
  {
    var s', n := Next(s, a), s.nodes[a.m];
    assert NodeOk(s, a.m) && RoundOk(s, a.r);
    if PreparedIn(n, a.r) { EnteredSolo(s, s', a.m, a.r); } else { SoloKept(s, s'); }
  }

  /** Node m activates the latest round r, which has not committed. */
  lemma EnteredSolo(s: State, s': State, m: nat, r: nat)
    requires Inv(s) && Solo(s) && IsNode(s, m) && IsRound(s, r) && s.rounds[r].decision != Committed
    requires s.rounds[r].decision == Running || (s.rounds[r].switched && PreparedIn(s.nodes[m], r))
    requires |s'.nodes| == |s.nodes| && |s'.rounds| == |s.rounds|
    requires forall i: nat :: IsNode(s, i) && i != m ==> s'.nodes[i] == s.nodes[i]
    requires forall q: nat :: IsRound(s, q) && q != r ==> s'.rounds[q] == s.rounds[q]
    requires s'.rounds[r].coord == s.rounds[r].coord && s'.rounds[r].decision == s.rounds[r].decision
    requires InRound(s'.nodes[m], r) && s'.nodes[m].asked == s.nodes[m].asked && s'.nodes[m].part.Some?
    requires s.nodes[m].part.Some? && !PreparedIn(s'.nodes[m], r) && m !in s.rounds[r].activated
    requires forall q: nat :: q != r ==> !PreparedIn(s'.nodes[m], q)
    ensures Solo(s')
  {
    forall q: nat | IsRound(s', q) ensures AllReady(s', q) && (q < |s'.rounds| - 1 ==> Over(s', q)) {
      assert AllReady(s, q);
      if q != r {
        assert Over(s, q);
      }
    }
    forall i: nat | IsNode(s', i) ensures CoordIdle(s', i) && Honest(s', i) {
      assert CoordIdle(s, i) && Honest(s, i) && NodeOk(s, i);
      if i == m { FirstAnswers(s, m, r); }
    }
  }

  /** A member entering a round has no answers from it yet. */
  lemma FirstAnswers(s: State, m: nat, r: nat)
    requires IsNode(s, m) && NodeOk(s, m) && IsRound(s, r) && m !in s.rounds[r].activated
    ensures s.nodes[m].asked.Some? ==> forall j :: j in s.nodes[m].asked.value ==> s.nodes[m].asked.value[j].during != r
  {
    var n := s.nodes[m];
    if n.asked.Some? {
      forall j | j in n.asked.value ensures n.asked.value[j].during != r {
        assert AnswerOk(s, n, m, j, n.asked.value[j]);
      }
    }
  }

  lemma DoneSolo(s: State, a: Action)
    requires Inv(s) && Solo(s) && a.Done? && Enabled(s, a)
    ensures Solo(Next(s, a))
  {
    var s', q := Next(s, a), s.nodes[a.c].coord.value;
    assert NodeOk(s, a.c) && RoundOk(s, q);
    DoneMeansAllInRound(s, a.c);
    forall r: nat | IsRound(s', r) ensures AllReady(s', r) && (r < |s'.rounds| - 1 ==> Over(s', r)) {
      assert AllReady(s, r);
      if r != q {
        assert Over(s, r);
      }
    }
    forall i: nat | IsNode(s', i) ensures CoordIdle(s', i) && Honest(s', i) {
      assert Honest(s, i) && InRound(s.nodes[i], q);
    }
  }

  /** A late prepare finds nobody to freeze that others are waiting for. */
  lemma OnPrepareSolo(s: State, a: Action)
    requires Inv(s) && Solo(s) && a.OnPrepare? && Disciplined(s, a)
    ensures Solo(Next(s, a))
  {
    var s' := DoPrepare(s, a.m, a.r, a.k, a.heads, a.busy);
    assert RoundOk(s, a.r) && !s.rounds[a.r].switched;
    forall r: nat | IsRound(s', r) ensures AllReady(s', r) && (r < |s'.rounds| - 1 ==> Over(s', r)) {
      assert AllReady(s, r);
      if r < |s.rounds| - 1 { PreparedOver(s, a, r); }
    }
    forall i: nat | IsNode(s', i) ensures CoordIdle(s', i) && Honest(s', i) {
      assert CoordIdle(s, i) && Honest(s, i) && NodeOk(s, i);
      if s.nodes[i].prev { PreparedCoordIdle(s, a, i); }
    }
  }

  lemma PreparedOver(s: State, a: Action, r: nat)
    requires a.OnPrepare? && Enabled(s, a) && IsRound(s, r) && Over(s, r) && !s.rounds[a.r].switched
    ensures Over(DoPrepare(s, a.m, a.r, a.k, a.heads, a.busy), r)
  {
    var s' := DoPrepare(s, a.m, a.r, a.k, a.heads, a.busy);
    forall m: nat | IsNode(s', m)
      ensures !InRound(s'.nodes[m], r) && (s'.rounds[r].switched ==> !PreparedIn(s'.nodes[m], r))
    {
      assert !InRound(s.nodes[m], r) && (s.rounds[r].switched ==> !PreparedIn(s.nodes[m], r));
    }
  }

  lemma PreparedCoordIdle(s: State, a: Action, i: nat)
    requires Inv(s) && Solo(s) && a.OnPrepare? && Disciplined(s, a) && IsNode(s, i) && s.nodes[i].prev
    ensures CoordIdle(DoPrepare(s, a.m, a.r, a.k, a.heads, a.busy), i)
  {
    var r := s.nodes[i].of;
    assert NodeOk(s, i) && RoundOk(s, r) && RoundOk(s, a.r) && AllReady(s, r) && CoordIdle(s, i);
    assert InRound(s.nodes[i], r);
    assert s.rounds[a.r].coord != s.rounds[r].coord ==> Others(s, s.rounds[r].coord, s.rounds[a.r].coord);
  }

  /** The new answer is honest: a coordinator that keeps nothing is idle, and says so. */
  lemma RecordedSolo(s: State, m: nat, b: nat)
    requires Inv(s) && Solo(s) && Enabled(s, OnOutcome(m, b))
    ensures Solo(SetNode(s, m, Recorded(s.nodes[m], b, StatusOf(s.nodes[b], s.nodes[m]))))
  {
    var n, a := s.nodes[m], StatusOf(s.nodes[b], s.nodes[m]);
    var s' := SetNode(s, m, Recorded(n, b, a));
    assert NodeOk(s, m) && NodeOk(s, b) && RoundOk(s, n.of) && CoordIdle(s, m) && Honest(s, m);
    forall r: nat | IsRound(s', r) ensures AllReady(s', r) && (r < |s'.rounds| - 1 ==> Over(s', r)) {
      assert AllReady(s, r);
      if r < |s.rounds| - 1 { assert Over(s, r); }
    }
    forall i: nat | IsNode(s', i) ensures CoordIdle(s', i) && Honest(s', i) {
      assert CoordIdle(s, i) && Honest(s, i);
    }
  }

  lemma SettleSolo(s: State, m: nat, commit: bool)
    requires Inv(s) && Solo(s) && IsNode(s, m) && s.nodes[m].part.Some? && s.nodes[m].coord.None?
    ensures Solo(Settle(s, m, commit))
  {
    assert NodeOk(s, m);
    SoloKept(s, Settle(s, m, commit));
  }

  lemma RoundStepSolo(s: State, a: Action)
    requires Inv(s) && Solo(s) && Enabled(s, a) && (a.Prepare? || a.EndIteration? || a.SendReady?)
    ensures Solo(Next(s, a))
  {
    SoloKept(s, Next(s, a));
  }

  lemma MemoryStepSolo(s: State, a: Action)
    requires Inv(s) && Solo(s) && Enabled(s, a) && (a.Ask? || a.Mint? || a.Gossip?)
    ensures Solo(Next(s, a))
  {
    SoloKept(s, Next(s, a));
  }

  lemma StopSolo(s: State, a: Action)
    requires Inv(s) && Solo(s) && Enabled(s, a) && (a.Abort? || a.Crash?)
    ensures Solo(Next(s, a))
  {
    var s' := Next(s, a);
    if a.Abort? { assert NodeOk(s, a.c); } else { assert NodeOk(s, a.m); }
    SoloKept(s, s');
  }

  lemma OnOutcomeSolo(s: State, a: Action)
    requires Inv(s) && Solo(s) && a.OnOutcome? && Sound(s, a)
    ensures Solo(Next(s, a))
  {
    var ans := StatusOf(s.nodes[a.b], s.nodes[a.m]);
    var s1 := SetNode(s, a.m, Recorded(s.nodes[a.m], a.b, ans));
    RecordedInv(s, a.m, a.b);
    RecordedSolo(s, a.m, a.b);
    match Resolve(s1.nodes[a.m], a.m, ans, |s.nodes|) {
      case Commits => SettleSolo(s1, a.m, true);
      case RollsBack => SettleSolo(s1, a.m, false);
      case Waits =>
    }
  }

  lemma StepSolo(s: State, a: Action)
    requires Inv(s) && Solo(s) && Disciplined(s, a) && Sound(s, a)
    ensures Solo(Next(s, a))
  {
    match a
    case Start(_, _) => StartSolo(s, a);
    case OnPrepare(_, _, _, _, _) => OnPrepareSolo(s, a);
    case Cut(_, _) => CutSolo(s, a);
    case OnSwitch(_, _) => OnSwitchSolo(s, a);
    case Done(_) => DoneSolo(s, a);
    case Abort(_) => StopSolo(s, a);
    case Crash(_) => StopSolo(s, a);
    case OnDecision(m, r) =>
      var n := s.nodes[m];
      if n.part.Some? && n.part.value.round == Some(r) { SettleSolo(s, m, s.rounds[r].decision == Committed); }
    case Abandon(m) => SettleSolo(s, m, false);
    case OnOutcome(_, _) => OnOutcomeSolo(s, a);
    case Prepare(_) => RoundStepSolo(s, a);
    case EndIteration(_, _, _) => RoundStepSolo(s, a);
    case SendReady(_, _) => RoundStepSolo(s, a);
    case Ask(_) => MemoryStepSolo(s, a);
    case Mint(_, _) => MemoryStepSolo(s, a);
    case Gossip(_, _, _) => MemoryStepSolo(s, a);
  }

  /** With one rotation at a time a member that rolls back on doubt relies on a coordinator that kept a generation. */
  lemma DisciplinedIsSound(s: State, a: Action)
    requires Inv(s) && Solo(s) && Disciplined(s, a)
    ensures Sound(s, a)
  {
    if a.OnOutcome? && RollsBackOnDoubt(s, a.m, a.b) {
      var ans := StatusOf(s.nodes[a.b], s.nodes[a.m]);
      var n := Recorded(s.nodes[a.m], a.b, ans);
      RecordedSolo(s, a.m, a.b);
      assert NodeOk(s, a.m) && RoundOk(s, n.of);
      assert Honest(SetNode(s, a.m, n), a.m);
      ReliedIsDead(s, a.m, a.b);
    }
  }

  lemma RunIsDisciplined(run: seq<State>, acts: seq<Action>, i: nat)
    requires IsExclusiveRun(run, acts) && i < |acts|
    ensures Disciplined(run[i], acts[i])
  {
    if OnDoubt(run[i], acts[i]) { AnswersAreOfThisRound(run, acts, acts[i].m, i); }
  }

  lemma {:induction false} ExclusiveInv(run: seq<State>, acts: seq<Action>, i: nat)
    requires IsExclusiveRun(run, acts) && i < |run|
    ensures Inv(run[i]) && Solo(run[i])
  {
    if i == 0 {
    } else {
      ExclusiveInv(run, acts, i - 1);
      RunIsDisciplined(run, acts, i - 1);
      DisciplinedIsSound(run[i - 1], acts[i - 1]);
      StepInv(run[i - 1], acts[i - 1]);
      StepSolo(run[i - 1], acts[i - 1]);
    }
  }

  /** This discipline on the steps is enough: all the theorems about runs hold for such runs. */
  lemma ExclusiveRunsAreRuns(run: seq<State>, acts: seq<Action>)
    requires IsExclusiveRun(run, acts)
    ensures IsRun(run, acts)
  {
    forall i | 0 <= i < |acts| ensures Sound(run[i], acts[i]) {
      ExclusiveInv(run, acts, i);
      RunIsDisciplined(run, acts, i);
      DisciplinedIsSound(run[i], acts[i]);
    }
  }

  lemma ExclusiveAgreement(run: seq<State>, acts: seq<Action>, i: nat, r: nat)
    requires IsExclusiveRun(run, acts) && i < |run| && IsRound(run[i], r)
    ensures run[i].rounds[r].purged == {} || run[i].rounds[r].returned == {}
    ensures run[i].rounds[r].purged != {} ==>
      forall m: nat :: IsNode(run[i], m) ==> m in run[i].rounds[r].activated
  {
    ExclusiveRunsAreRuns(run, acts);
    Agreement(run, acts, i, r);
  }
}
