/** Runs in which two members end a round differently, of three members with empty stores: one with rounds
    that overlap, one with rounds that do not but with answers left over from an earlier round. */
module ClusterFailures {
  import opened Prelude
  import opened Cluster

  /** One step that only has to be enabled and, in a strict run, not to overlap with another round. */
  ghost predicate Step(strict: bool, p: State, s: State) {
    exists a :: Enabled(p, a) && (strict ==> InTurn(p, a)) && s == Next(p, a)
  }

  ghost predicate LooseRun(strict: bool, run: seq<State>) {
    |run| > 0 && Init(run[0]) && forall i :: 0 <= i < |run| - 1 ==> Step(strict, run[i], run[i + 1])
  }

  ghost predicate Reached(strict: bool, s: State) {
    exists run :: LooseRun(strict, run) && run[|run| - 1] == s
  }

  /** States are equal when their sequences are, element by element. */
  predicate Same(s: State, t: State) {
    && |s.nodes| == |t.nodes| == 3 && |s.rounds| == |t.rounds|
    && s.nodes[0] == t.nodes[0] && s.nodes[1] == t.nodes[1] && s.nodes[2] == t.nodes[2]
    && (forall r :: 0 <= r < |s.rounds| ==> s.rounds[r] == t.rounds[r] || SameRound(s.rounds[r], t.rounds[r]))
    && s.nextId == t.nextId && s.base == t.base && s.last == t.last
  }

  predicate SameRound(x: Round, y: Round) {
    && |x.seen| == |y.seen| == 3
    && x.seen[0] == y.seen[0] && x.seen[1] == y.seen[1] && x.seen[2] == y.seen[2]
    && x == y.(seen := x.seen)
  }

  lemma SameIsEqual(s: State, t: State)
    requires Same(s, t)
    ensures s == t
  {
    forall r | 0 <= r < |s.rounds| ensures s.rounds[r] == t.rounds[r] {
      assert SameRound(s.rounds[r], t.rounds[r]) ==> s.rounds[r].seen == t.rounds[r].seen;
    }
    assert s.nodes == t.nodes && s.rounds == t.rounds;
  }

  lemma Arrive(strict: bool, p: State, a: Action, s: State)
    requires Reached(strict, p) && Enabled(p, a) && (strict ==> InTurn(p, a)) && Same(s, Next(p, a))
    ensures Reached(strict, s)
  {
    SameIsEqual(s, Next(p, a));
    var run :| LooseRun(strict, run) && run[|run| - 1] == p;
    assert LooseRun(strict, run + [s]);
  }

  lemma NothingBelow()
    ensures Heads({}, {}) && Closed({})
  {}

  // ---- a round up to its cut ----

  /** Three idle members on one generation, and the rounds so far. */
  datatype Setting = Setting(past: seq<Round>, n0: Node, n1: Node, n2: Node, id: nat, base: int, last: nat)

  predicate IsIdle(n: Node, gen: int) {
    n.gen == gen && !n.prev && n.part.None? && n.coord.None? && n.have == {} && n.prior == {}
  }

  predicate Rested(c: Setting) { IsIdle(c.n0, c.base) && IsIdle(c.n1, c.base) && IsIdle(c.n2, c.base) }

  function Rest(c: Setting): State { State([c.n0, c.n1, c.n2], c.past, c.id, c.base, c.last) }

  function Freeze(n: Node, r: nat): Node { n.(part := Some(Part(Some(r), Prepared))) }

  const Clean: Reply := Reply({}, false, false)
  const Both: map<nat, Reply> := map[1 := Clean, 2 := Clean]

  function NewRound(c: nat): Round {
    Round(c, Running, 0, [0, 0, 0], false, 0, {}, map[], false, {}, None, {}, {}, {}, {})
  }

  function Phase1(k: nat, seen: seq<nat>, collecting: bool, stable: nat, replies: map<nat, Reply>): Round {
    NewRound(0).(iters := k, seen := seen, collecting := collecting, stable := stable, replies := replies)
  }

  /** Node 0 coordinating a new round in this setting. */
  function During(c: Setting, m1: Node, m2: Node, x: Round): State {
    var r := |c.past|;
    State([Freeze(c.n0, r).(coord := Some(r)), m1, m2], c.past + [x], c.id, c.base, c.last)
  }

  lemma Begin(strict: bool, c: Setting)
    requires Rested(c) && Reached(strict, Rest(c))
    ensures Reached(strict, During(c, c.n1, c.n2, Phase1(0, [0, 0, 0], false, 0, map[])))
  {
    NothingBelow();
    Arrive(strict, Rest(c), Start(0, {}), During(c, c.n1, c.n2, Phase1(0, [0, 0, 0], false, 0, map[])));
  }

  lemma Send(strict: bool, c: Setting, k: nat, m1: Node, m2: Node, replies: map<nat, Reply>)
    requires Rested(c) && k < 2 && Reached(strict, During(c, m1, m2, Phase1(k, [0, k, k], false, k, replies)))
    ensures Reached(strict, During(c, m1, m2, Phase1(k + 1, [0, k, k], true, k, map[])))
  {
    Arrive(strict, During(c, m1, m2, Phase1(k, [0, k, k], false, k, replies)), Prepare(0),
           During(c, m1, m2, Phase1(k + 1, [0, k, k], true, k, map[])));
  }

  lemma FirstReply(strict: bool, c: Setting, k: nat, m1: Node, m2: Node)
    requires Rested(c) && Accepting(c, m1)
    requires Reached(strict, During(c, m1, m2, Phase1(k + 1, [0, k, k], true, k, map[])))
    ensures var r := |c.past|;
      Reached(strict, During(c, Freeze(m1, r), m2, Phase1(k + 1, [0, k + 1, k], true, k, map[1 := Clean])))
  {
    var r := |c.past|;
    NothingBelow();
    Arrive(strict, During(c, m1, m2, Phase1(k + 1, [0, k, k], true, k, map[])), OnPrepare(1, r, k + 1, {}, false),
           During(c, Freeze(m1, r), m2, Phase1(k + 1, [0, k + 1, k], true, k, map[1 := Clean])));
  }

  lemma SecondReply(strict: bool, c: Setting, k: nat, m1: Node, m2: Node)
    requires Rested(c) && Accepting(c, m2)
    requires Reached(strict, During(c, m1, m2, Phase1(k + 1, [0, k + 1, k], true, k, map[1 := Clean])))
    ensures Reached(strict, During(c, m1, Freeze(m2, |c.past|), Phase1(k + 1, [0, k + 1, k + 1], true, k, Both)))
  {
    var r := |c.past|;
    NothingBelow();
    Arrive(strict, During(c, m1, m2, Phase1(k + 1, [0, k + 1, k], true, k, map[1 := Clean])),
           OnPrepare(2, r, k + 1, {}, false),
           During(c, m1, Freeze(m2, r), Phase1(k + 1, [0, k + 1, k + 1], true, k, Both)));
  }

  /** One clean iteration of phase 1. */
  lemma Iterate(strict: bool, c: Setting, k: nat, m1: Node, m2: Node, replies: map<nat, Reply>)
    requires Rested(c) && k < 2 && Accepting(c, m1) && Accepting(c, m2)
    requires Reached(strict, During(c, m1, m2, Phase1(k, [0, k, k], false, k, replies)))
    ensures var r := |c.past|;
      Reached(strict, During(c, Freeze(m1, r), Freeze(m2, r), Phase1(k + 1, [0, k + 1, k + 1], false, k + 1, Both)))
  {
    Send(strict, c, k, m1, m2, replies);
    FirstReply(strict, c, k, m1, m2);
    SecondReply(strict, c, k, Freeze(m1, |c.past|), m2);
    Finished(strict, c, k, m1, m2);
  }

  predicate Accepting(c: Setting, m: Node) {
    m.coord.None? && !m.prev && m.have == {} && (m.part.None? || m.part == Some(Part(Some(|c.past|), Prepared)))
  }

  lemma Finished(strict: bool, c: Setting, k: nat, m1: Node, m2: Node)
    requires Rested(c)
    requires var r := |c.past|;
      Reached(strict, During(c, Freeze(m1, r), Freeze(m2, r), Phase1(k + 1, [0, k + 1, k + 1], true, k, Both)))
    ensures var r := |c.past|;
      Reached(strict, During(c, Freeze(m1, r), Freeze(m2, r), Phase1(k + 1, [0, k + 1, k + 1], false, k + 1, Both)))
  {
    var r := |c.past|;
    var s := During(c, Freeze(m1, r), Freeze(m2, r), Phase1(k + 1, [0, k + 1, k + 1], true, k, Both));
    NothingBelow();
    assert Good(s.rounds[r], 1) && Good(s.rounds[r], 2);
    Arrive(strict, s, EndIteration(0, {}, false),
           During(c, Freeze(m1, r), Freeze(m2, r), Phase1(k + 1, [0, k + 1, k + 1], false, k + 1, Both)));
  }

  /** The round after its cut, with the members that have activated it and those that are ready. */
  function Phase2(ready: set<nat>, activated: set<nat>): Round {
    Phase1(2, [0, 2, 2], false, 2, Both).(switched := true, ready := ready, activated := activated)
  }

  function Leading(n: Node, r: nat): Node {
    n.(gen := n.gen + 1, prev := true, of := r, part := Some(Part(Some(r), Prepared)), coord := Some(r))
  }

  function Cutted(c: Setting, m1: Node, m2: Node, x: Round): State {
    State([Leading(c.n0, |c.past|), m1, m2], c.past + [x], c.id + 1, c.base, c.last)
  }

  lemma ToCut(strict: bool, c: Setting)
    requires Rested(c) && Reached(strict, Rest(c))
    ensures Reached(strict, Cutted(c, Freeze(c.n1, |c.past|), Freeze(c.n2, |c.past|), Phase2({}, {0})))
  {
    var r := |c.past|;
    Begin(strict, c);
    Iterate(strict, c, 0, c.n1, c.n2, map[]);
    Iterate(strict, c, 1, Freeze(c.n1, r), Freeze(c.n2, r), Both);
    CutNow(strict, c, Freeze(c.n1, r), Freeze(c.n2, r));
  }

  lemma CutNow(strict: bool, c: Setting, m1: Node, m2: Node)
    requires Rested(c) && Reached(strict, During(c, m1, m2, Phase1(2, [0, 2, 2], false, 2, Both)))
    ensures Reached(strict, Cutted(c, m1, m2, Phase2({}, {0})))
  {
    Arrive(strict, During(c, m1, m2, Phase1(2, [0, 2, 2], false, 2, Both)), Cut(0, false),
           Cutted(c, m1, m2, Phase2({}, {0})));
  }

  /** Node n after activating round r. */
  function Doubtful(n: Node, r: nat, waits: set<nat>): Node {
    n.(gen := n.gen + 1, prev := true, of := r, part := Some(Part(Some(r), Switched)), waits := waits)
  }

  function Idle(gen: int): Node { Node(gen, false, None, None, {}, None, {}, {}, 0) }

  const Fresh: Setting := Setting([], Idle(0), Idle(0), Idle(0), 0, 0, 0)

  const T11: State := Cutted(Fresh, In0({0}), Freeze(Idle(0), 0), Phase2({}, {0, 1}))

  function In0(waits: set<nat>): Node { Doubtful(Idle(0), 0, waits) }

  lemma AfterSwitch(strict: bool)
    ensures Reached(strict, T11)
  {
    assert LooseRun(strict, [Rest(Fresh)]);
    ToCut(strict, Fresh);
    var f := Freeze(Idle(0), 0);
    Arrive(strict, Cutted(Fresh, f, f, Phase2({}, {0})), OnSwitch(1, 0), T11);
  }

  // ---- overlapping rounds ----

  /** Round 0 committed, with node 1 left in doubt. */
  const Won: Round := Phase2({1, 2}, {0, 1, 2}).(decision := Committed, purged := {0, 2})

  const Asking: Node := In0({}).(asked := Some(map[]))
  const Said: Answer := Answer(true, 1, false, 0)
  const Misled: Node := In0({}).(asked := Some(map[0 := Said]))

  function After(n0: Node, n1: Node, n2: Node, later: seq<Round>): State {
    State([n0, n1, n2], [Won] + later, 1, 1, 0)
  }

  function Coordinating(gen: int, r: nat): Node { Freeze(Idle(gen), r).(coord := Some(r)) }

  const Round1: Round := NewRound(2)
  const Round1Sent: Round := Round1.(iters := 1, collecting := true)
  const Round1Answered: Round := Round1Sent.(seen := [1, 0, 0], replies := map[0 := Clean])
  const Round1Over: Round := Round1Answered.(decision := Aborted)
  const Round2: Round := NewRound(0)
  const Round2Sent: Round := Round2.(iters := 1, collecting := true)
  const Round2Answered: Round := Round2Sent.(seen := [0, 0, 1], replies := map[2 := Clean])

  const T12: State := Cutted(Fresh, In0({0}), In0({0}), Phase2({}, {0, 1, 2}))
  const T13: State := Cutted(Fresh, In0({}), In0({0}), Phase2({1}, {0, 1, 2}))
  const T14: State := Cutted(Fresh, In0({}), In0({}), Phase2({1, 2}, {0, 1, 2}))
  const T15: State := State([Idle(1), In0({}), In0({})], [Won.(purged := {0})], 1, 1, 0)
  const T16: State := After(Idle(1), In0({}), Idle(1), [])
  const T17: State := After(Idle(1), Asking, Idle(1), [])
  const T18: State := After(Idle(1), Asking, Coordinating(1, 1), [Round1])
  const T19: State := After(Idle(1), Asking, Coordinating(1, 1), [Round1Sent])
  const T20: State := After(Freeze(Idle(1), 1), Asking, Coordinating(1, 1), [Round1Answered])
  const T21: State := After(Freeze(Idle(1), 1), Misled, Coordinating(1, 1), [Round1Answered])
  const T22: State := After(Freeze(Idle(1), 1), Misled, Idle(1), [Round1Over])
  const T23: State := After(Idle(1), Misled, Idle(1), [Round1Over])
  const T24: State := After(Coordinating(1, 2), Misled, Idle(1), [Round1Over, Round2])
  const T25: State := After(Coordinating(1, 2), Misled, Idle(1), [Round1Over, Round2Sent])
  const T26: State := After(Coordinating(1, 2), Misled, Freeze(Idle(1), 2), [Round1Over, Round2Answered])
  const T27: State :=
    State([Coordinating(1, 2), Idle(0).(asked := Some(map[0 := Said, 2 := Said])), Freeze(Idle(1), 2)],
          [Won.(returned := {1}), Round1Over, Round2Answered], 1, 1, 0)

  lemma S11()
    ensures Reached(false, T12)
  {
    AfterSwitch(false);
    Arrive(false, T11, OnSwitch(2, 0), T12);
  }

  lemma S12()
    ensures Reached(false, T13)
  {
    S11();
    Arrive(false, T12, SendReady(1, 0), T13);
  }

  lemma S13()
    ensures Reached(false, T14)
  {
    S12();
    Arrive(false, T13, SendReady(2, 0), T14);
  }

  lemma S14()
    ensures Reached(false, T15)
  {
    S13();
    Arrive(false, T14, Done(0), T15);
  }

  lemma S15()
    ensures Reached(false, T16)
  {
    S14();
    Arrive(false, T15, OnDecision(2, 0), T16);
  }

  lemma S16()
    ensures Reached(false, T17)
  {
    S15();
    Arrive(false, T16, Ask(1), T17);
  }

  lemma S17()
    ensures Reached(false, T18)
  {
    S16();
    NothingBelow();
    Arrive(false, T17, Start(2, {}), T18);
  }

  lemma S18()
    ensures Reached(false, T19)
  {
    S17();
    Arrive(false, T18, Prepare(2), T19);
  }

  lemma S19()
    ensures Reached(false, T20)
  {
    S18();
    NothingBelow();
    Arrive(false, T19, OnPrepare(0, 1, 1, {}, false), T20);
  }

  lemma S20()
    ensures Reached(false, T21)
  {
    S19();
    assert 2 !in Misled.asked.value && 2 != 1;
    assert !AllInDoubt(Misled, 1, 3);
    Arrive(false, T20, OnOutcome(1, 0), T21);
  }

  lemma S21()
    ensures Reached(false, T22)
  {
    S20();
    Arrive(false, T21, Abort(2), T22);
  }

  lemma S22()
    ensures Reached(false, T23)
  {
    S21();
    Arrive(false, T22, OnDecision(0, 1), T23);
  }

  lemma S23()
    ensures Reached(false, T24)
  {
    S22();
    NothingBelow();
    Arrive(false, T23, Start(0, {}), T24);
  }

  lemma S24()
    ensures Reached(false, T25)
  {
    S23();
    Arrive(false, T24, Prepare(0), T25);
  }

  lemma S25()
    ensures Reached(false, T26)
  {
    S24();
    NothingBelow();
    Arrive(false, T25, OnPrepare(2, 2, 1, {}, false), T26);
  }

  /** Both peers have now said "indoubt" at node 1's generation, so it rolls back. */
  lemma BothMislead()
    ensures Resolve(Recorded(Misled, 2, Said), 1, Said, 3) == RollsBack
  {}

  lemma S26()
    ensures Reached(false, T27)
  {
    S25();
    BothMislead();
    assert StatusOf(T26.nodes[2], T26.nodes[1]) == Said;
    Arrive(false, T26, OnOutcome(1, 2), T27);
  }

  /** Agreement fails when rounds overlap: node 1 missed done and is still in doubt, and every other member answers
      it while merely prepared for a later round. */
  lemma OverlapBreaksAgreement()
    ensures exists run :: LooseRun(false, run) && Split(run[|run| - 1], 0)
  {
    S26();
    var run :| LooseRun(false, run) && run[|run| - 1] == T27;
  }

  /** Some member purged the old generation of round r and another returned to it. */
  predicate Split(s: State, r: nat) { IsRound(s, r) && s.rounds[r].purged != {} && s.rounds[r].returned != {} }

  // ---- answers left over ----

  const Kept: Answer := Answer(true, 1, true, 0)
  const Settled: Answer := Answer(false, 0, false, 0)
  const Lost0: Round := Phase2({}, {0, 1}).(decision := Lost)
  const Restarted: Node := Leading(Idle(0), 0).(part := Some(Part(None, Switched)), coord := None)

  function InRound0(n1: Node, n2: Node, x: Round): State { State([Restarted, n1, n2], [x], 1, 0, 0) }

  const U1: State := InRound0(In0({0}), Freeze(Idle(0), 0), Lost0)
  const U2: State := InRound0(In0({0}).(asked := Some(map[])), Freeze(Idle(0), 0), Lost0)
  const U3: State := InRound0(In0({0}).(asked := Some(map[0 := Kept])), Freeze(Idle(0), 0), Lost0)
  const U4: State := InRound0(In0({0}).(asked := Some(map[0 := Kept])), Idle(0), Lost0)
  const Stale: Node := Idle(0).(waits := {0}, asked := Some(map[0 := Kept, 2 := Settled]))
  const U5: State := InRound0(Stale, Idle(0), Lost0.(returned := {1}))
  const Again: Setting := Setting([Lost0.(returned := {0, 1})], Idle(0), Stale, Idle(0), 1, 0, 0)

  lemma S30()
    ensures Reached(true, U2)
  {
    AfterSwitch(true);
    Arrive(true, T11, Crash(0), U1);
    Arrive(true, U1, Ask(1), U2);
  }

  lemma S31()
    ensures Reached(true, U4)
  {
    S30();
    assert 2 !in U3.nodes[1].asked.value && !AllInDoubt(U3.nodes[1], 1, 3);
    Arrive(true, U2, OnOutcome(1, 0), U3);
    Arrive(true, U3, Abandon(2), U4);
  }

  lemma S32()
    ensures Reached(true, Rest(Again))
  {
    S31();
    Arrive(true, U4, OnOutcome(1, 2), U5);
    Arrive(true, U5, OnOutcome(0, 2), Rest(Again));
  }

  function InRound1(n1: Node, n2: Node, x: Round): State { Cutted(Again, n1, n2, x) }

  const V0: State := InRound1(Freeze(Stale, 1), Freeze(Idle(0), 1), Phase2({}, {0}))
  const V1: State := InRound1(Doubtful(Stale, 1, {0, 1}), Freeze(Idle(0), 1), Phase2({}, {0, 1}))
  const V2: State := InRound1(Doubtful(Stale, 1, {0, 1}), Doubtful(Idle(0), 1, {1}), Phase2({}, {0, 1, 2}))
  const V3: State := InRound1(Doubtful(Stale, 1, {0}), Doubtful(Idle(0), 1, {1}), Phase2({1}, {0, 1, 2}))
  const V4: State := InRound1(Doubtful(Stale, 1, {0}), Doubtful(Idle(0), 1, {}), Phase2({1, 2}, {0, 1, 2}))
  const Mixed: map<nat, Answer> := map[0 := Kept, 2 := Answer(true, 1, true, 1)]
  const V5: State :=
    InRound1(Stale.(of := 1, asked := Some(Mixed)), Doubtful(Idle(0), 1, {}),
             Phase2({1, 2}, {0, 1, 2}).(returned := {1}))
  const V6: State :=
    State([Idle(1).(of := 1), V5.nodes[1], V5.nodes[2]],
          [Lost0.(returned := {0, 1}), V5.rounds[1].(decision := Committed, purged := {0})], 2, 1, 1)

  lemma S33()
    ensures Reached(true, V1)
  {
    S32();
    ToCut(true, Again);
    Arrive(true, V0, OnSwitch(1, 1), V1);
  }

  lemma S34()
    ensures Reached(true, V2)
  {
    S33();
    Arrive(true, V1, OnSwitch(2, 1), V2);
  }

  lemma S35()
    ensures Reached(true, V4)
  {
    S34();
    Arrive(true, V2, SendReady(1, 1), V3);
    S35Ready();
  }

  lemma S35Ready()
    requires Reached(true, V3)
    ensures Reached(true, V4)
  {
    Arrive(true, V3, SendReady(2, 1), V4);
  }

  /** The answer of round 0 and the new one together say that everybody is in doubt. */
  lemma LeftoverMisleads()
    ensures var n := Recorded(V4.nodes[1], 2, Answer(true, 1, true, 1));
      n.asked == Some(Mixed) && Resolve(n, 1, Answer(true, 1, true, 1), 3) == RollsBack
  {
    assert Stale.asked.value[2 := Answer(true, 1, true, 1)] == Mixed;
  }

  lemma S36()
    ensures Reached(true, V5)
  {
    S35();
    LeftoverMisleads();
    var a := OnOutcome(1, 2);
    assert StatusOf(V4.nodes[2], V4.nodes[1]) == Answer(true, 1, true, 1);
    assert Next(V4, a).nodes[1] == V5.nodes[1] && Next(V4, a).rounds[1] == V5.rounds[1];
    Arrive(true, V4, a, V5);
  }

  lemma S37()
    ensures Reached(true, V6)
  {
    S36();
    Arrive(true, V5, Done(0), V6);
  }

  /** Agreement also fails without any overlap, because a member's recorded answers outlive the round they were
      given in: node 1 counts what the coordinator said in an earlier round and gives up one that then commits. */
  lemma LeftoverAnswersBreakAgreement()
    ensures exists run :: LooseRun(true, run) && Split(run[|run| - 1], 1)
  {
    S37();
    var run :| LooseRun(true, run) && run[|run| - 1] == V6;
  }
}
