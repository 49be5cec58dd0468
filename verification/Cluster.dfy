/** The cluster compaction protocol as a state machine: any number of rounds, any interleaving,
    message loss, crashes with restart, peer-outcome resolution.

    A round is `Compact` running on one node. Its messages are not queued explicitly: a round
    remembers what its coordinator has sent so far (`iters` prepares, `switched`, `decision`)
    and, per member, the latest prepare delivered (`seen`). A prepare is delivered at most once
    and never after a later one; switch, done and abort may be lost, delayed, repeated or
    reordered at will. A status/outcome exchange reads the peer's current state. */
module Cluster {
  import opened Prelude

  // ---- blocks of the replicated DAG (content addressed: a block holds its parents) ----

  datatype Block = Block(id: nat, parents: seq<Block>)

  ghost predicate Reaches(h: Block, x: Block)
    decreases h
  {
    h == x || exists i :: 0 <= i < |h.parents| && Reaches(h.parents[i], x)
  }

  ghost predicate Below(u: set<Block>, x: Block) {
    exists h :: h in u && Reaches(h, x)
  }

  /** An empty processing queue leaves the processed blocks closed under ancestors. */
  ghost predicate Closed(have: set<Block>) {
    forall x :: Below(have, x) ==> x in have
  }

  /** Head bookkeeping is path dependent, but the heads always cover every processed block. */
  ghost predicate Heads(have: set<Block>, heads: set<Block>) {
    heads <= have && forall x :: x in have && x !in heads ==> Below(heads, x)
  }

  // ---- node state ----

  datatype Phase = Prepared | Switched

  /** A rotation in progress on a node; `round` is None after a restart in doubt. */
  datatype Part = Part(round: Option<nat>, phase: Phase)

  /** A peer's answer to a status question. `kept` (the peer really holds a previous generation)
      and `during` (the asker's round when the answer was recorded) are history the code does
      not have. */
  datatype Answer = Answer(inDoubt: bool, gen: int, kept: bool, during: nat)

  datatype Node = Node(
    gen: int,
    prev: bool,                            // generation gen - 1 is still kept
    part: Option<Part>,                    // writes are frozen while this is Some
    coord: Option<nat>,                    // the round this node is inside Compact for
    waits: set<nat>,                       // rounds whose WaitSeed is still running here
    asked: Option<map<nat, Answer>>,       // statusReplies
    have: set<Block>,                      // processed blocks of the active generation
    prior: set<Block>,                     // blocks of the kept previous generation
    of: nat)                               // history: the round that activated `gen`

  datatype Decision = Running | Committed | Aborted | Lost

  datatype Reply = Reply(heads: set<Block>, missing: bool, busy: bool)

  datatype Round = Round(
    coord: nat,
    decision: Decision,
    iters: nat,                            // prepares broadcast so far
    seen: seq<nat>,                        // per node: the latest prepare delivered to it
    collecting: bool,
    stable: nat,
    union: set<Block>,
    replies: map<nat, Reply>,              // OK answers to the latest prepare
    switched: bool,                        // the coordinator staged, activated, sends switch
    cut: set<Block>,                       // the blocks whose live state was seeded
    genesis: Option<Block>,                // None: nothing to seed
    ready: set<nat>,
    // history
    activated: set<nat>,                   // nodes that activated the new generation
    purged: set<nat>,                      // ... and then purged the old one
    returned: set<nat>)                    // ... or went back to it

  datatype State = State(
    nodes: seq<Node>,
    rounds: seq<Round>,
    nextId: nat,                           // next unused block id
    base: int,                             // history: generation of the latest commit
    last: nat)                             // history: the latest committed round

  datatype Action =
    | Start(c: nat, heads: set<Block>)
    | Prepare(c: nat)
    | OnPrepare(m: nat, r: nat, k: nat, heads: set<Block>, busy: bool)
    | EndIteration(c: nat, heads: set<Block>, busy: bool)
    | Cut(c: nat, seeded: bool)
    | OnSwitch(m: nat, r: nat)
    | SendReady(m: nat, r: nat)
    | Done(c: nat)
    | Abort(c: nat)
    | OnDecision(m: nat, r: nat)
    | Abandon(m: nat)
    | Ask(m: nat)
    | OnOutcome(m: nat, b: nat)
    | Crash(m: nat)
    | Mint(m: nat, parents: seq<Block>)
    | Gossip(b: nat, m: nat, x: Block)

  // ---- per-node handlers ----

  /** Engine.Commit: drop the previous generation. */
  function Purge(n: Node): Node {
    n.(prev := false, prior := {})
  }

  /** Engine.Rollback: back to the previous generation, if one is kept. */
  function Return(n: Node): Node {
    if n.prev then n.(gen := n.gen - 1, prev := false, have := n.prior, prior := {}) else n
  }

  /** finish, once it is known to apply to this node's rotation. */
  function Finish(n: Node, commit: bool): Node
    requires n.part.Some?
  {
    var n' := if commit && n.part.value.phase == Switched then Purge(n) else Return(n);
    n'.(part := None)
  }

  /** Engine.Stage(seed = false) and Activate. */
  function Activated(n: Node, r: nat, have: set<Block>, part: Part): Node {
    n.(gen := n.gen + 1, prev := true, prior := n.have, have := have, of := r, part := Some(part))
  }

  /** The prepare handler freezes an idle node; a busy one is left alone. */
  predicate AcceptsPrepare(n: Node, r: nat) {
    n.part == Some(Part(Some(r), Prepared)) || (n.part.None? && !n.prev)
  }

  predicate InRound(n: Node, r: nat) {
    n.prev && n.of == r
  }

  predicate PreparedIn(n: Node, r: nat) {
    n.coord.None? && n.part == Some(Part(Some(r), Prepared))
  }

  /** What onStatus answers: a node with any rotation in progress says "indoubt". */
  function StatusOf(b: Node, asker: Node): Answer {
    Answer(b.part.Some? || b.prev, b.gen, b.prev, asker.of)
  }

  function Recorded(n: Node, b: nat, a: Answer): Node {
    if n.asked.None? then n else n.(asked := Some(n.asked.value[b := a]))
  }

  /** allInDoubt of onOutcome, over all the other members. */
  predicate AllInDoubt(n: Node, m: nat, count: nat) {
    && count > 1
    && n.asked.Some?
    && forall j :: 0 <= j < count && j != m ==>
         j in n.asked.value && n.asked.value[j].inDoubt && n.asked.value[j].gen == n.gen
  }

  datatype Verdict = Commits | RollsBack | Waits

  function Resolve(n: Node, m: nat, a: Answer, count: nat): Verdict {
    if !a.inDoubt && a.gen >= n.gen then Commits
    else if !a.inDoubt then RollsBack
    else if AllInDoubt(n, m, count) then RollsBack
    else Waits
  }

  // ---- steps ----

  predicate IsNode(s: State, i: nat) { i < |s.nodes| }
  predicate IsRound(s: State, r: nat) { r < |s.rounds| }

  function SetNode(s: State, i: nat, n: Node): State
    requires IsNode(s, i)
  {
    s.(nodes := s.nodes[i := n])
  }

  function SetRound(s: State, r: nat, x: Round): State
    requires IsRound(s, r)
  {
    s.(rounds := s.rounds[r := x])
  }

  /** Finish on node m, recording in the history how its round ended for it. */
  function Settle(s: State, m: nat, commit: bool): State
    requires IsNode(s, m) && s.nodes[m].part.Some?
  {
    var n := s.nodes[m];
    var s' := SetNode(s, m, Finish(n, commit));
    if !n.prev || !IsRound(s, n.of) then s'
    else
      var x := s.rounds[n.of];
      SetRound(s', n.of,
        if commit && n.part.value.phase == Switched then x.(purged := x.purged + {m})
        else x.(returned := x.returned + {m}))
  }

  function Missing(have: set<Block>, union: set<Block>): bool { !(union <= have) }

  predicate Others(s: State, c: nat, i: nat) { i < |s.nodes| && i != c }

  predicate Good(x: Round, m: nat) {
    m in x.replies && x.replies[m].heads <= x.union && !x.replies[m].missing && !x.replies[m].busy
  }

  /** One evaluation of the phase-1 loop body, after collect. */
  function Evaluated(x: Round, n: Node, count: nat, heads: set<Block>, busy: bool): Round {
    var seenHeads := set m, h | m in x.replies && h in x.replies[m].heads :: h;
    var union := x.union + heads + seenHeads;
    var settled :=
      && (forall m :: 0 <= m < count && m != x.coord ==> Good(x, m))
      && heads <= x.union && !Missing(n.have, union) && !busy;
    x.(collecting := false, union := union, stable := if settled then x.stable + 1 else 0)
  }

  ghost predicate Enabled(s: State, a: Action) {
    match a
    case Start(c, heads) =>
      && IsNode(s, c) && s.nodes[c].coord.None? && s.nodes[c].part.None? && !s.nodes[c].prev
      && Heads(s.nodes[c].have, heads)
    case Prepare(c) =>
      InPhase1(s, c) && !MyRound(s, c).collecting && MyRound(s, c).stable < 2
    case OnPrepare(m, r, k, heads, busy) =>
      && IsNode(s, m) && IsRound(s, r) && s.nodes[m].coord.None? && s.rounds[r].coord != m
      && |s.rounds[r].seen| == |s.nodes| && s.rounds[r].seen[m] < k <= s.rounds[r].iters
      && Heads(s.nodes[m].have, heads) && (!busy ==> Closed(s.nodes[m].have))
    case EndIteration(c, heads, busy) =>
      && InPhase1(s, c) && MyRound(s, c).collecting
      && Heads(s.nodes[c].have, heads) && (!busy ==> Closed(s.nodes[c].have))
    case Cut(c, seeded) =>
      InPhase1(s, c) && !MyRound(s, c).collecting && MyRound(s, c).stable >= 2
    case OnSwitch(m, r) =>
      IsNode(s, m) && IsRound(s, r) && s.nodes[m].coord.None? && s.rounds[r].switched
    case SendReady(m, r) =>
      && IsNode(s, m) && IsRound(s, r) && r in s.nodes[m].waits
      && (s.rounds[r].genesis.Some? ==> s.rounds[r].genesis.value in s.nodes[m].have)
    case Done(c) =>
      InPhase2(s, c) && forall i :: Others(s, c, i) ==> i in MyRound(s, c).ready
    case Abort(c) =>
      InCompact(s, c)
    case OnDecision(m, r) =>
      && IsNode(s, m) && IsRound(s, r) && s.nodes[m].coord.None?
      && s.rounds[r].decision in {Committed, Aborted}
    case Abandon(m) =>
      && IsNode(s, m) && s.nodes[m].coord.None? && s.nodes[m].part.Some?
      && s.nodes[m].part.value.phase == Prepared
    case Ask(m) =>
      InDoubt(s, m)
    case OnOutcome(m, b) =>
      InDoubt(s, m) && IsNode(s, b) && b != m && s.nodes[b].coord.None?
    case Crash(m) =>
      IsNode(s, m)
    case Mint(m, parents) =>
      && IsNode(s, m) && s.nodes[m].part.None? && !s.nodes[m].prev
      && forall i :: 0 <= i < |parents| ==> parents[i] in s.nodes[m].have
    case Gossip(b, m, x) =>
      IsNode(s, b) && IsNode(s, m) && s.nodes[b].gen == s.nodes[m].gen && x in s.nodes[b].have
  }

  predicate InCompact(s: State, c: nat) {
    IsNode(s, c) && s.nodes[c].coord.Some? && IsRound(s, s.nodes[c].coord.value)
  }

  function MyRound(s: State, c: nat): Round
    requires InCompact(s, c)
  {
    s.rounds[s.nodes[c].coord.value]
  }

  predicate InPhase1(s: State, c: nat) { InCompact(s, c) && !MyRound(s, c).switched }
  predicate InPhase2(s: State, c: nat) { InCompact(s, c) && MyRound(s, c).switched }

  predicate InDoubt(s: State, m: nat) {
    && IsNode(s, m) && s.nodes[m].coord.None? && s.nodes[m].part.Some?
    && s.nodes[m].part.value.phase == Switched
  }

  ghost function Next(s: State, a: Action): State
    requires Enabled(s, a)
  {
    match a
    case Start(c, heads) => DoStart(s, c, heads)
    case Prepare(c) =>
      var r := s.nodes[c].coord.value;
      var x := s.rounds[r];
      SetRound(s, r, x.(iters := x.iters + 1, collecting := true, replies := map[]))
    case OnPrepare(m, r, k, heads, busy) => DoPrepare(s, m, r, k, heads, busy)
    case EndIteration(c, heads, busy) =>
      SetRound(s, s.nodes[c].coord.value, Evaluated(MyRound(s, c), s.nodes[c], |s.nodes|, heads, busy))
    case Cut(c, seeded) => DoCut(s, c, seeded)
    case OnSwitch(m, r) => DoSwitch(s, m, r)
    case SendReady(m, r) =>
      var x := s.rounds[r];
      SetRound(SetNode(s, m, s.nodes[m].(waits := s.nodes[m].waits - {r})),
               r, x.(ready := x.ready + {m}))
    case Done(c) => DoDone(s, c)
    case Abort(c) => DoAbort(s, c)
    case OnDecision(m, r) =>
      var n := s.nodes[m];
      if n.part.Some? && n.part.value.round == Some(r)
      then Settle(s, m, s.rounds[r].decision == Committed)
      else s
    case Abandon(m) => Settle(s, m, false)
    case Ask(m) => SetNode(s, m, s.nodes[m].(asked := Some(map[])))
    case OnOutcome(m, b) => DoOutcome(s, m, b)
    case Crash(m) => DoCrash(s, m)
    case Mint(m, parents) =>
      var n := s.nodes[m];
      SetNode(s, m, n.(have := n.have + {Block(s.nextId, parents)})).(nextId := s.nextId + 1)
    case Gossip(b, m, x) =>
      var n := s.nodes[m];
      SetNode(s, m, n.(have := n.have + {x}))
  }

  function DoStart(s: State, c: nat, heads: set<Block>): State
    requires IsNode(s, c)
  {
    var r := |s.rounds|;
    var x := Round(c, Running, 0, seq(|s.nodes|, i => 0), false, 0, heads, map[], false, {}, None,
                   {}, {}, {}, {});
    SetNode(s, c, s.nodes[c].(coord := Some(r), part := Some(Part(Some(r), Prepared))))
      .(rounds := s.rounds + [x])
  }

  function DoPrepare(s: State, m: nat, r: nat, k: nat, heads: set<Block>, busy: bool): State
    requires IsNode(s, m) && IsRound(s, r) && m < |s.rounds[r].seen|
  {
    var n, x := s.nodes[m], s.rounds[r];
    var x' := x.(seen := x.seen[m := k]);
    if !AcceptsPrepare(n, r) then SetRound(s, r, x')
    else
      SetRound(SetNode(s, m, n.(part := Some(Part(Some(r), Prepared)))), r,
        if k < x.iters || !x.collecting then x'
        else x'.(replies := x.replies[m := Reply(heads, Missing(n.have, x.union), busy)]))
  }

  function DoCut(s: State, c: nat, seeded: bool): State
    requires InCompact(s, c)
  {
    var n, r, x := s.nodes[c], s.nodes[c].coord.value, MyRound(s, c);
    var seed := Block(s.nextId, []);
    SetRound(SetNode(s, c, Activated(n, r, if seeded then {seed} else {}, Part(Some(r), Prepared))), r,
      x.(switched := true, cut := n.have, activated := x.activated + {c},
         genesis := if seeded then Some(seed) else None)).(nextId := s.nextId + 1)
  }

  function DoSwitch(s: State, m: nat, r: nat): State
    requires IsNode(s, m) && IsRound(s, r)
  {
    var n, x := s.nodes[m], s.rounds[r];
    if n.part == Some(Part(Some(r), Prepared)) then
      SetRound(SetNode(s, m, Activated(n, r, {}, Part(Some(r), Switched)).(waits := n.waits + {r})), r,
        x.(activated := x.activated + {m}))
    else if n.part == Some(Part(Some(r), Switched)) then
      SetNode(s, m, n.(waits := n.waits + {r}))
    else s
  }

  /** Broadcasting done and the coordinator's own Commit. */
  function DoDone(s: State, c: nat): State
    requires InCompact(s, c)
  {
    var r, x := s.nodes[c].coord.value, MyRound(s, c);
    SetRound(SetNode(s, c, Purge(s.nodes[c]).(part := None, coord := None)), r,
      x.(decision := Committed, purged := x.purged + {c})).(base := s.base + 1, last := r)
  }

  function DoAbort(s: State, c: nat): State
    requires InCompact(s, c)
  {
    var r, x := s.nodes[c].coord.value, MyRound(s, c);
    SetRound(SetNode(s, c, Return(s.nodes[c]).(part := None, coord := None)), r,
      x.(decision := Aborted, returned := if x.switched then x.returned + {c} else x.returned))
  }

  function DoOutcome(s: State, m: nat, b: nat): State
    requires InDoubt(s, m) && IsNode(s, b)
  {
    var a := StatusOf(s.nodes[b], s.nodes[m]);
    var s' := SetNode(s, m, Recorded(s.nodes[m], b, a));
    match Resolve(s'.nodes[m], m, a, |s.nodes|)
    case Commits => Settle(s', m, true)
    case RollsBack => Settle(s', m, false)
    case Waits => s'
  }

  /** Losing all memory and restarting: the persisted generation decides what is resumed. */
  function DoCrash(s: State, m: nat): State
    requires IsNode(s, m)
  {
    var n := s.nodes[m];
    var n' := n.(coord := None, waits := {}, asked := None,
                 part := if n.prev then Some(Part(None, Switched)) else None);
    var s' := SetNode(s, m, n');
    if n.coord.Some? && IsRound(s, n.coord.value)
    then SetRound(s', n.coord.value, s.rounds[n.coord.value].(decision := Lost))
    else s'
  }

  // ---- runs ----

  ghost predicate Init(s: State) {
    && |s.nodes| >= 1 && s.rounds == []
    && forall i :: 0 <= i < |s.nodes| ==>
         var n := s.nodes[i];
         n.gen == s.base && !n.prev && n.part.None? && n.coord.None? && n.waits == {} && n.asked.None?
  }

  predicate IsCommitted(s: State, r: nat) { IsRound(s, r) && s.rounds[r].decision == Committed }

  /** A member that will never activate the round: the round can no longer commit. */
  predicate Out(s: State, r: nat, m: nat)
    requires IsRound(s, r)
  {
    Others(s, s.rounds[r].coord, m) && m !in s.rounds[r].activated && !PreparedIn(s.nodes[m], r)
  }

  ghost predicate Doomed(s: State, r: nat)
    requires IsRound(s, r)
  {
    exists m: nat :: Out(s, r, m)
  }

  /** The round has not committed and cannot any more. */
  ghost predicate Dead(s: State, r: nat)
    requires IsRound(s, r)
  {
    s.rounds[r].decision != Committed && (s.rounds[r].decision == Running ==> Doomed(s, r))
  }

  predicate RollsBackOnDoubt(s: State, m: nat, b: nat)
    requires InDoubt(s, m) && IsNode(s, b)
  {
    var a := StatusOf(s.nodes[b], s.nodes[m]);
    a.inDoubt && AllInDoubt(Recorded(s.nodes[m], b, a), m, |s.nodes|)
  }

  /** Runs are restricted in one way only: a node rolls back because everybody is in doubt only when its round is
      dead. Nothing in the code sees to it (ClusterFailures), and exactly then the step is safe (ClusterTheorems,
      RollbackOnDoubtIff). */
  ghost predicate Sound(s: State, a: Action) {
    && Enabled(s, a)
    && (a.OnOutcome? && RollsBackOnDoubt(s, a.m, a.b) ==> IsRound(s, s.nodes[a.m].of) && Dead(s, s.nodes[a.m].of))
  }

  ghost predicate IsRun(run: seq<State>, acts: seq<Action>) {
    && |run| == |acts| + 1 && Init(run[0])
    && forall i :: 0 <= i < |acts| ==> Sound(run[i], acts[i]) && run[i + 1] == Next(run[i], acts[i])
  }

  // ---- one rotation at a time ----

  predicate AllIdle(s: State) {
    forall i :: 0 <= i < |s.nodes| ==> s.nodes[i].part.None? && !s.nodes[i].prev && s.nodes[i].coord.None?
  }

  /** A prepare is not overtaken on its link by its sender's ready in a later round. */
  predicate InOrder(s: State, m: nat, r: nat)
    requires IsRound(s, r)
  {
    forall q :: r < q < |s.rounds| && s.rounds[q].coord == m ==> s.rounds[r].coord !in s.rounds[q].ready
  }

  /** Rounds do not overlap: one starts only once every member is idle. */
  ghost predicate InTurn(s: State, a: Action) {
    Enabled(s, a) && (a.Start? ==> AllIdle(s)) && (a.OnPrepare? ==> InOrder(s, a.m, a.r))
  }
}
