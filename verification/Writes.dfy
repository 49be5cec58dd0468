/** Writers against rotation: every interleaving of Put, Delete and batch commits, split at the
    points where the code lets go of its locks, with the rotation of module Generations. */
module Writes {
  import opened Prelude
  import opened Generations

  datatype Op = Put(key: string, value: string) | Delete(key: string)

  function Apply(m: Store, op: Op): Store {
    match op
    case Put(k, v) => m[k := v]
    case Delete(k) => m - {k}
  }

  function ApplyAll(m: Store, ops: seq<Op>): Store
    decreases |ops|
  {
    if ops == [] then m else ApplyAll(Apply(m, ops[0]), ops[1..])
  }

  /** The live map of the acknowledged writes, applied in order. */
  function Replay(log: seq<Op>): Store { ApplyAll(map[], log) }

  lemma {:induction false} ApplyAllConcat(m: Store, a: seq<Op>, b: seq<Op>)
    ensures ApplyAll(m, a + b) == ApplyAll(ApplyAll(m, a), b)
    decreases |a|
  {
    if a == [] {
      assert a + b == b;
    } else {
      assert (a + b)[1..] == a[1..] + b;
      ApplyAllConcat(Apply(m, a[0]), a[1..], b);
    }
  }

  /** A sub-batch belongs to the datastore it was opened on; `gen` is that datastore's. */
  datatype Batch = Batch(handle: nat, gen: nat, ops: seq<Op>)

  datatype Writer =
    | Admitted(op: Op)                     // past the gate, not yet applied
    | BatchAdmitted(batch: Batch)
    | BatchChecked(batch: Batch)           // found its datastore still current; lock released
    | Finished

  datatype State = State(p: Partition, writers: map<nat, Writer>, batches: map<nat, Batch>, log: seq<Op>)

  datatype Action =
    | Begin(w: nat, op: Op) | Write(w: nat) | End(w: nat)
    | OpenBatch(b: nat, ops: seq<Op>) | BeginBatch(w: nat, b: nat) | CheckBatch(w: nat) | WriteBatch(w: nat)
    | Freeze | DoStage(seed: bool) | DoActivate(wait: bool) | SeedArrives | SeedSeen
    | DoCommit | DoRollback | Unfreeze | DoRestart

  predicate Enabled(s: State, a: Action) {
    match a
    case Begin(w, op) => !s.p.frozen && w !in s.writers
    case Write(w) => w in s.writers && s.writers[w].Admitted?
    case End(w) => w in s.writers && s.writers[w].Finished? && s.p.inflight > 0
    case OpenBatch(b, ops) => !s.p.blockReads && b !in s.batches
    case BeginBatch(w, b) => !s.p.frozen && w !in s.writers && b in s.batches
    case CheckBatch(w) => w in s.writers && s.writers[w].BatchAdmitted?
    case WriteBatch(w) => w in s.writers && s.writers[w].BatchChecked?
    case Freeze => true
    // Freeze has returned: no new writes, none in flight.
    case DoStage(seed) => s.p.frozen && s.p.inflight == 0 && !InDoubt(s.p)
    case DoActivate(wait) => s.p.staged.Some?
    // The coordinator's seed is this replica's live map too (module ClusterTheorems, SoundCut).
    case SeedArrives => s.p.prev.Some? && !s.p.seeded
    case SeedSeen => s.p.prev.Some? && s.p.seeded
    // done is only sent once every member holds the seed (ClusterTheorems, DoneIsSafe).
    case DoCommit => s.p.prev.Some? && s.p.seeded
    case DoRollback => InDoubt(s.p)
    case Unfreeze => !InDoubt(s.p)
    // A restart that abandons a staged seed is the one excluded case (Generations, StagedCrashResurrects).
    case DoRestart => !LeavesSeed(s.p, OpRestart)
  }

  function Next(s: State, a: Action): State
    requires Enabled(s, a)
  {
    var p := s.p;
    match a
    case Begin(w, op) => s.(p := p.(inflight := p.inflight + 1), writers := s.writers[w := Admitted(op)])
    case Write(w) =>
      var op := s.writers[w].op;
      s.(p := p.(data := p.data[p.gen := Apply(Live(p), op)]), writers := s.writers[w := Finished],
         log := s.log + [op])
    case End(w) => s.(p := p.(inflight := p.inflight - 1), writers := s.writers - {w})
    case OpenBatch(b, ops) => s.(batches := s.batches[b := Batch(p.handle, p.gen, ops)])
    case BeginBatch(w, b) =>
      s.(p := p.(inflight := p.inflight + 1), writers := s.writers[w := BatchAdmitted(s.batches[b])])
    case CheckBatch(w) =>
      var b := s.writers[w].batch;
      s.(writers := s.writers[w := if p.handle == b.handle then BatchChecked(b) else Finished])
    case WriteBatch(w) =>
      var b := s.writers[w].batch;
      s.(p := p.(data := p.data[b.gen := ApplyAll(Ns(p.data, b.gen), b.ops)]),
         writers := s.writers[w := Finished], log := s.log + b.ops)
    case Freeze => s.(p := p.(frozen := true))
    case DoStage(seed) => s.(p := Stage(p, seed).value)
    case DoActivate(wait) => s.(p := Activate(p, wait).value)
    case SeedArrives => s.(p := p.(data := p.data[p.gen := Ns(p.data, p.prev.value)], seeded := true))
    case SeedSeen => s.(p := p.(blockReads := false))
    case DoCommit => s.(p := Commit(p))
    case DoRollback => s.(p := Rollback(p))
    case Unfreeze => s.(p := p.(frozen := false, blockReads := false))
    case DoRestart => State(Restart(p), map[], map[], s.log)
  }

  // ---- the invariant ----

  predicate BatchOk(p: Partition, b: Batch) {
    && b.handle < p.nextHandle
    && (b.handle == p.handle ==> b.gen == p.gen)
    && (p.oldHandle == Some(b.handle) ==> p.prev == Some(b.gen))
    && (p.staged.Some? ==> b.handle != p.staged.value.handle)
  }

  predicate WriterOk(p: Partition, w: Writer) {
    match w
    case BatchAdmitted(b) => BatchOk(p, b)
    case BatchChecked(b) => BatchOk(p, b) && b.handle == p.handle
    case _ => true
  }

  predicate HandlesOk(p: Partition) {
    && p.handle < p.nextHandle
    && (p.oldHandle.Some? ==> p.prev.Some? && p.oldHandle.value < p.nextHandle && p.oldHandle.value != p.handle)
    && (p.staged.Some? ==> p.staged.value.handle < p.nextHandle && p.staged.value.handle != p.handle)
  }

  /** Where the acknowledged writes are. */
  predicate DataOk(p: Partition, log: seq<Op>) {
    && (InDoubt(p) ==> p.frozen && p.inflight == 0)
    && (p.prev.None? ==> Live(p) == Replay(log))
    && (p.prev.Some? ==> Ns(p.data, p.prev.value) == Replay(log) && (p.seeded ==> Live(p) == Replay(log)))
    && (p.prev.Some? && !p.seeded ==> Live(p) == map[])
    && (p.staged.Some? ==>
          Ns(p.data, p.staged.value.gen) == if p.staged.value.seeded then Replay(log) else map[])
  }

  ghost predicate Inv(s: State) {
    && Clean(s.p) && HandlesOk(s.p) && DataOk(s.p, s.log)
    && |s.writers| == s.p.inflight
    && (forall w :: w in s.writers ==> WriterOk(s.p, s.writers[w]))
    && (forall b :: b in s.batches ==> BatchOk(s.p, s.batches[b]))
  }

  ghost predicate Init(s: State) {
    s == State(Partition(0, 0, None, None, None, map[], None, None, false, false, 0, 1, true), map[], map[], [])
  }

  lemma RemoveKey(m: map<nat, Writer>, k: nat)
    requires k in m
    ensures |m - {k}| == |m| - 1
  {
    assert (m - {k}).Keys == m.Keys - {k};
  }

  /** Rewriting a namespace in use leaves the others empty. */
  lemma DataClean(p: Partition, g: nat, m: Store)
    requires Clean(p) && InUse(p, g)
    ensures Clean(p.(data := p.data[g := m]))
  {
    var q := p.(data := p.data[g := m]);
    forall h: nat | !InUse(q, h) ensures Ns(q.data, h) == map[] { assert !InUse(p, h); }
  }

  predicate IsWriterAction(a: Action) {
    a.Begin? || a.Write? || a.End? || a.OpenBatch? || a.BeginBatch? || a.CheckBatch? || a.WriteBatch?
  }

  /** Changing the writers only. */
  lemma WritersInv(s: State, s': State)
    requires Inv(s) && s'.p == s.p.(inflight := s'.p.inflight) && s'.log == s.log
    requires |s'.writers| == s'.p.inflight && !InDoubt(s.p)
    requires forall w :: w in s'.writers ==> WriterOk(s.p, s'.writers[w])
    requires s'.batches == s.batches
    ensures Inv(s')
  {
    forall g: nat | !InUse(s'.p, g) ensures Ns(s'.p.data, g) == map[] { assert !InUse(s.p, g); }
    forall w | w in s'.writers ensures WriterOk(s'.p, s'.writers[w]) { assert WriterOk(s.p, s'.writers[w]); }
    forall b | b in s'.batches ensures BatchOk(s'.p, s'.batches[b]) { assert BatchOk(s.p, s.batches[b]); }
  }

  /** Writing ops into the active generation and logging them. */
  lemma LandsInv(s: State, w: nat, ops: seq<Op>)
    requires Inv(s) && w in s.writers
    ensures
      var p := s.p.(data := s.p.data[s.p.gen := ApplyAll(Live(s.p), ops)]);
      Inv(s.(p := p, writers := s.writers[w := Finished], log := s.log + ops))
  {
    NoRotation(s, w);
    ApplyAllConcat(map[], s.log, ops);
    DataClean(s.p, s.p.gen, ApplyAll(Live(s.p), ops));
    var p := s.p.(data := s.p.data[s.p.gen := ApplyAll(Live(s.p), ops)]);
    var s' := s.(p := p, writers := s.writers[w := Finished], log := s.log + ops);
    forall v | v in s'.writers ensures WriterOk(p, s'.writers[v]) {
      if v != w { assert WriterOk(s.p, s.writers[v]); }
    }
    forall b | b in s.batches ensures BatchOk(p, s.batches[b]) { assert BatchOk(s.p, s.batches[b]); }
  }

  lemma WriterStep(s: State, a: Action)
    requires Inv(s) && Enabled(s, a) && IsWriterAction(a)
    ensures Inv(Next(s, a))
  {
    match a
    case Begin(w, op) => BeginStep(s, w, Admitted(op));
    case Write(w) => LandsInv(s, w, [s.writers[w].op]);
    case End(w) => RemoveKey(s.writers, w); NoRotation(s, w); WritersInv(s, Next(s, a));
    case OpenBatch(b, ops) => OpenInv(s, b, ops);
    case BeginBatch(w, b) => BeginStep(s, w, BatchAdmitted(s.batches[b]));
    case CheckBatch(w) => CheckStep(s, w);
    case WriteBatch(w) =>
      assert WriterOk(s.p, s.writers[w]);
      LandsInv(s, w, s.writers[w].batch.ops);
  }

  lemma BeginStep(s: State, w: nat, writer: Writer)
    requires Inv(s) && !s.p.frozen && w !in s.writers && WriterOk(s.p, writer)
    ensures Inv(s.(p := s.p.(inflight := s.p.inflight + 1), writers := s.writers[w := writer]))
  {
    WritersInv(s, s.(p := s.p.(inflight := s.p.inflight + 1), writers := s.writers[w := writer]));
  }

  lemma CheckStep(s: State, w: nat)
    requires Inv(s) && Enabled(s, CheckBatch(w))
    ensures Inv(Next(s, CheckBatch(w)))
  {
    var s' := Next(s, CheckBatch(w));
    NoRotation(s, w);
    assert WriterOk(s.p, s.writers[w]);
    WritersInv(s, s');
  }

  lemma OpenInv(s: State, b: nat, ops: seq<Op>)
    requires Inv(s) && Enabled(s, OpenBatch(b, ops))
    ensures Inv(Next(s, OpenBatch(b, ops)))
  {
    var s' := Next(s, OpenBatch(b, ops));
    forall k | k in s'.batches ensures BatchOk(s.p, s'.batches[k]) {
      if k != b { assert BatchOk(s.p, s.batches[k]); }
    }
  }

  /** A writer past the gate keeps any rotation from starting. */
  lemma NoRotation(s: State, w: nat)
    requires Inv(s) && w in s.writers
    ensures s.p.inflight > 0 && !InDoubt(s.p)
  {
    assert w in s.writers.Keys;
  }

  /** Changing the partition only, with nobody past the gate. */
  lemma PartitionInv(s: State, p: Partition)
    requires Inv(s) && s.p.inflight == 0 && p.inflight == 0
    requires Clean(p) && HandlesOk(p) && DataOk(p, s.log)
    requires forall b: Batch :: BatchOk(s.p, b) ==> BatchOk(p, b)
    ensures Inv(s.(p := p))
  {
  }

  ghost predicate PartOk(p: Partition, log: seq<Op>) {
    Clean(p) && HandlesOk(p) && DataOk(p, log) && p.inflight == 0
  }

  lemma StageOk(p: Partition, log: seq<Op>, seed: bool)
    requires PartOk(p, log) && p.frozen && !InDoubt(p)
    ensures var q := Stage(p, seed).value;
      PartOk(q, log) && forall b: Batch :: BatchOk(p, b) ==> BatchOk(q, b)
  {
    StageClean(p, seed);
    assert Ns(p.data, p.gen + 1) == map[] by { assert !InUse(p, p.gen + 1); }
    assert map[] + Live(p) == Live(p);
  }

  lemma ActivateOk(p: Partition, log: seq<Op>, wait: bool)
    requires PartOk(p, log) && p.staged.Some?
    ensures var q := Activate(p, wait).value;
      PartOk(q, log) && forall b: Batch :: BatchOk(p, b) ==> BatchOk(q, b)
  {
    ActivateClean(p, wait);
  }

  lemma CommitOk(p: Partition, log: seq<Op>)
    requires PartOk(p, log) && p.prev.Some? && p.seeded
    ensures var q := Commit(p);
      PartOk(q, log) && forall b: Batch :: BatchOk(p, b) ==> BatchOk(q, b)
  {
    CommitClean(p);
  }

  lemma RollbackOk(p: Partition, log: seq<Op>)
    requires PartOk(p, log) && InDoubt(p)
    ensures var q := Rollback(p);
      PartOk(q, log) && forall b: Batch :: BatchOk(p, b) ==> BatchOk(q, b)
  {
    RollbackClean(p);
  }

  lemma SeedOk(p: Partition, log: seq<Op>)
    requires PartOk(p, log) && p.prev.Some?
    ensures var q := p.(data := p.data[p.gen := Ns(p.data, p.prev.value)], seeded := true);
      PartOk(q, log) && forall b: Batch :: BatchOk(p, b) ==> BatchOk(q, b)
  {
    DataClean(p, p.gen, Ns(p.data, p.prev.value));
  }

  lemma RotationStep(s: State, a: Action)
    requires Inv(s) && Enabled(s, a) && !IsWriterAction(a)
    ensures Inv(Next(s, a))
  {
    var p := s.p;
    match a
    case Freeze => GateInv(s, p.(frozen := true));
    case Unfreeze => GateInv(s, p.(frozen := false, blockReads := false));
    case SeedSeen => GateInv(s, p.(blockReads := false));
    case DoStage(seed) => StageOk(p, s.log, seed); PartitionInv(s, Stage(p, seed).value);
    case DoActivate(wait) => ActivateOk(p, s.log, wait); PartitionInv(s, Activate(p, wait).value);
    case SeedArrives => SeedOk(p, s.log); PartitionInv(s, Next(s, a).p);
    case DoCommit => CommitOk(p, s.log); PartitionInv(s, Commit(p));
    case DoRollback => RollbackOk(p, s.log); PartitionInv(s, Rollback(p));
    case DoRestart => RestartKeepsCleanIff(p);
  }

  lemma GateInv(s: State, p: Partition)
    requires Inv(s) && p == s.p.(frozen := p.frozen, blockReads := p.blockReads)
    requires InDoubt(p) ==> p.frozen
    ensures Inv(s.(p := p))
  {
    forall g: nat | !InUse(p, g) ensures Ns(p.data, g) == map[] { assert !InUse(s.p, g); }
    forall w | w in s.writers ensures WriterOk(p, s.writers[w]) { assert WriterOk(s.p, s.writers[w]); }
    forall b | b in s.batches ensures BatchOk(p, s.batches[b]) { assert BatchOk(s.p, s.batches[b]); }
  }

  ghost predicate IsRun(run: seq<State>, acts: seq<Action>) {
    && |run| == |acts| + 1 && Init(run[0])
    && forall i :: 0 <= i < |acts| ==> Enabled(run[i], acts[i]) && run[i + 1] == Next(run[i], acts[i])
  }

  lemma {:induction false} RunInv(run: seq<State>, acts: seq<Action>, i: nat)
    requires IsRun(run, acts) && i < |run|
    ensures Inv(run[i])
  {
    if i > 0 {
      RunInv(run, acts, i - 1);
      var s, a := run[i - 1], acts[i - 1];
      if IsWriterAction(a) {
        WriterStep(s, a);
      } else {
        RotationStep(s, a);
      }
    }
  }

  /** Acknowledged writes survive rotation: whenever no rotation is pending, and also during one
      once the seed is here, the live map is that of the acknowledged writes applied in order. */
  lemma AcknowledgedWritesSurvive(run: seq<State>, acts: seq<Action>, i: nat)
    requires IsRun(run, acts) && i < |run|
    ensures run[i].p.prev.None? || run[i].p.seeded ==> Live(run[i].p) == Replay(run[i].log)
    ensures run[i].p.prev.Some? ==> Live(Rollback(run[i].p)) == Replay(run[i].log)
    ensures run[i].p.prev.Some? && run[i].p.seeded ==> Live(Commit(run[i].p)) == Replay(run[i].log)
  {
    RunInv(run, acts, i);
  }

  /** A write or a batch that lands, lands in the generation that is active at that moment, and no
      rotation is pending then. */
  lemma WritesLandInActiveGeneration(run: seq<State>, acts: seq<Action>, i: nat, w: nat)
    requires IsRun(run, acts) && i < |acts| && acts[i] in {Write(w), WriteBatch(w)}
    ensures !InDoubt(run[i].p) && run[i + 1].p.gen == run[i].p.gen
    ensures acts[i].WriteBatch? ==> run[i].writers[w].batch.gen == run[i].p.gen
    ensures forall g: nat :: g != run[i].p.gen ==> Ns(run[i + 1].p.data, g) == Ns(run[i].p.data, g)
  {
    RunInv(run, acts, i);
    NoRotation(run[i], w);
    assert WriterOk(run[i].p, run[i].writers[w]);
  }

  /** A batch opened on one generation and committed on another is refused: nothing is written. */
  lemma BatchSpanningSwitchRefused(run: seq<State>, acts: seq<Action>, i: nat, w: nat)
    requires IsRun(run, acts) && i < |acts| && acts[i] == CheckBatch(w)
    requires run[i].writers[w].batch.gen != run[i].p.gen
    ensures run[i + 1].writers[w] == Finished && run[i + 1].p == run[i].p && run[i + 1].log == run[i].log
  {
    RunInv(run, acts, i);
    assert WriterOk(run[i].p, run[i].writers[w]);
  }

  /** After a restart in doubt reads are open again even if the seed has not arrived: what they
      see is right exactly when it has, or when there is nothing to see. */
  lemma ReadsInDoubtIff(run: seq<State>, acts: seq<Action>, i: nat)
    requires IsRun(run, acts) && i < |run| && run[i].p.prev.Some? && !run[i].p.blockReads
    ensures Live(run[i].p) == Replay(run[i].log) <==> run[i].p.seeded || Replay(run[i].log) == map[]
  {
    RunInv(run, acts, i);
  }

  // ---- where the protection ends ----

  /** Runs in which the gate may also be opened in doubt, as RotatePartition does when it is refused. */
  predicate UngatedEnabled(s: State, a: Action) { a.Unfreeze? || Enabled(s, a) }

  function UngatedNext(s: State, a: Action): State
    requires UngatedEnabled(s, a)
  {
    if a.Unfreeze? then s.(p := s.p.(frozen := false, blockReads := false)) else Next(s, a)
  }

  ghost predicate IsUngatedRun(run: seq<State>, acts: seq<Action>) {
    && |run| == |acts| + 1 && Init(run[0])
    && forall i :: 0 <= i < |acts| ==> UngatedEnabled(run[i], acts[i]) && run[i + 1] == UngatedNext(run[i], acts[i])
  }

  predicate OpensInDoubt(s: State, a: Action) { a.Unfreeze? && InDoubt(s.p) }

  /** Up to the first time the gate is opened in doubt every acknowledged write is safe. */
  lemma SafeUntilOpenedInDoubt(run: seq<State>, acts: seq<Action>, i: nat)
    requires IsUngatedRun(run, acts) && i < |run|
    requires forall j :: 0 <= j < i ==> !OpensInDoubt(run[j], acts[j])
    ensures run[i].p.prev.None? || run[i].p.seeded ==> Live(run[i].p) == Replay(run[i].log)
    ensures run[i].p.prev.Some? ==> Live(Rollback(run[i].p)) == Replay(run[i].log)
  {
    assert IsRun(run[..i + 1], acts[..i]);
    AcknowledgedWritesSurvive(run[..i + 1], acts[..i], i);
  }

  /** A write let in while a rotation is in doubt goes to the new generation, so a rollback undoes it: what is left
      is what there would be without it. */
  lemma WriteInDoubtVanishes(p: Partition, op: Op)
    requires Clean(p) && p.prev.Some?
    ensures Live(Rollback(p.(data := p.data[p.gen := Apply(Live(p), op)]))) == Live(Rollback(p))
  {
    DataClean(p, p.gen, Apply(Live(p), op));
    RollbackOfActive(p);
    RollbackOfActive(p.(data := p.data[p.gen := Apply(Live(p), op)]));
  }

  /** Some run leads here; without opening the gate in doubt if `gated`. */
  ghost predicate Reached(gated: bool, s: State) {
    exists run: seq<State>, acts: seq<Action> ::
      (if gated then IsRun(run, acts) else IsUngatedRun(run, acts)) && run[|acts|] == s
  }

  lemma Move(gated: bool, s: State, a: Action, s': State)
    requires Reached(gated, s)
    requires if gated then Enabled(s, a) && s' == Next(s, a) else UngatedEnabled(s, a) && s' == UngatedNext(s, a)
    ensures Reached(gated, s')
  {
    var run: seq<State>, acts: seq<Action> :|
      (if gated then IsRun(run, acts) else IsUngatedRun(run, acts)) && run[|acts|] == s;
    var run', acts' := run + [s'], acts + [a];
    assert if gated then IsRun(run', acts') else IsUngatedRun(run', acts');
    assert run'[|acts'|] == s';
  }

  /** A partition in a steady state, and one whose rotation is in doubt. */
  function Steady(data: map<nat, Store>, frozen: bool): Partition {
    Partition(0, 0, None, None, None, data, None, None, frozen, false, 0, 1, true)
  }

  function Doubt(data: map<nat, Store>, seeded: bool, frozen: bool, blocked: bool): Partition {
    Partition(1, 1, None, Some(0), Some(0), data, Some(1), Some(0), frozen, blocked, 0, 2, seeded)
  }

  const LOG: seq<Op> := [Put("k", "v")]

  lemma Started(gated: bool)
    ensures Reached(gated, State(Steady(map[], false), map[], map[], []))
  {
    var s := State(Steady(map[], false), map[], map[], []);
    var run, acts: seq<Action> := [s], [];
    assert if gated then IsRun(run, acts) else IsUngatedRun(run, acts);
    assert run[|acts|] == s;
  }

  /** A writer puts the entry. */
  lemma WriteEntry(gated: bool, p: Partition, q: Partition)
    requires Reached(gated, State(p, map[], map[], []))
    requires !p.frozen && p.inflight == 0 && Live(p) == map[]
    requires q == p.(data := p.data[p.gen := ENTRY])
    ensures Reached(gated, State(q, map[], map[], LOG))
  {
    var op := Put("k", "v");
    var writers: map<nat, Writer> := map[0 := Admitted(op)];
    var finished: map<nat, Writer> := map[0 := Finished];
    Move(gated, State(p, map[], map[], []), Begin(0, op), State(p.(inflight := 1), writers, map[], []));
    assert Apply(map[], op) == ENTRY && writers[0 := Finished] == finished && [] + [op] == LOG;
    Move(gated, State(p.(inflight := 1), writers, map[], []), Write(0), State(q.(inflight := 1), finished, map[], LOG));
    assert finished - {0} == map[];
    Move(gated, State(q.(inflight := 1), finished, map[], LOG), End(0), State(q, map[], map[], LOG));
  }

  /** Freeze, Stage and Activate. */
  lemma Rotate(gated: bool, data: map<nat, Store>, log: seq<Op>, seed: bool, wait: bool)
    requires Reached(gated, State(Steady(data, false), map[], map[], log))
    ensures
      var next := if seed then Ns(data, 1) + Ns(data, 0) else Ns(data, 1);
      Reached(gated, State(Doubt(data[1 := next], seed, true, wait), map[], map[], log))
  {
    var next := if seed then Ns(data, 1) + Ns(data, 0) else Ns(data, 1);
    var p, frozen := Steady(data, false), Steady(data, true);
    var staged := frozen.(staged := Some(Staged(1, 1, seed)), data := data[1 := next], nextHandle := 2);
    Move(gated, State(p, map[], map[], log), Freeze, State(frozen, map[], map[], log));
    Move(gated, State(frozen, map[], map[], log), DoStage(seed), State(staged, map[], map[], log));
    Move(gated, State(staged, map[], map[], log), DoActivate(wait),
         State(Doubt(data[1 := next], seed, true, wait), map[], map[], log));
  }

  /** Reads are let through and do not see the acknowledged writes. */
  predicate ReadsWrong(s: State) { !s.p.blockReads && Live(s.p) != Replay(s.log) }

  /** A restart forgets that reads wait for the seed: after a write, a rotation activated without a seed and a
      restart, reads are open on an empty generation. */
  lemma ReadsWrongAfterRestart()
    ensures exists s :: Reached(true, s) && s.p.prev.Some? && ReadsWrong(s)
  {
    Started(true);
    WriteEntry(true, Steady(map[], false), Steady(map[0 := ENTRY], false));
    Rotate(true, map[0 := ENTRY], LOG, false, true);
    var p := Doubt(map[0 := ENTRY][1 := map[]], false, true, true);
    var s := State(Restart(p), map[], map[], LOG);
    Move(true, State(p, map[], map[], LOG), DoRestart, s);
    assert "k" in Replay(LOG) && "k" !in Live(s.p);
  }

  /** A write let in while in doubt can be lost: a rotation is activated, a second one is refused and opens the
      gate, a write is acknowledged, the first rotation is rolled back. */
  lemma OpenedInDoubtLosesWrite()
    ensures exists s :: Reached(false, s) && !InDoubt(s.p) && ReadsWrong(s)
  {
    Started(false);
    Rotate(false, map[], [], true, false);
    var data: map<nat, Store> := map[1 := map[]];
    assert map[][1 := map[] + map[]] == data;
    var p := Doubt(data, true, false, false);
    Move(false, State(Doubt(data, true, true, false), map[], map[], []), Unfreeze, State(p, map[], map[], []));
    var q := p.(data := data[1 := ENTRY]);
    WriteEntry(false, p, q);
    var s := State(Rollback(q), map[], map[], LOG);
    Move(false, State(q, map[], map[], LOG), DoRollback, s);
    assert "k" in Replay(LOG) && "k" !in Live(s.p);
  }

  /** What opening the gate here leads to, with one writer and the rotation's next step. */
  ghost predicate Loses(s: State, op: Op) {
    var a := UngatedNext(s, Unfreeze);
    var last := if s.p.staged.Some? then DoActivate(false) else DoRollback;
    && Enabled(a, Begin(0, op))
    && var b := Next(a, Begin(0, op));
    && Enabled(b, Write(0))
    && var c := Next(b, Write(0));
    && Enabled(c, last) && ReadsWrong(Next(c, last))
  }

  lemma NoWritersInDoubt(s: State)
    requires Inv(s) && InDoubt(s.p)
    ensures s.writers == map[]
  {
    assert s.writers.Keys == {};
  }

  lemma ReplayOne(log: seq<Op>, op: Op)
    ensures Replay(log + [op]) == Apply(Replay(log), op)
  {
    ApplyAllConcat(map[], log, [op]);
  }

  /** From every state in doubt, opening the gate lets in some write that is then lost: with SafeUntilOpenedInDoubt,
      acknowledged writes are safe exactly as long as the gate is not opened in doubt. */
  lemma OpeningInDoubtLoses(s: State)
    requires Inv(s) && InDoubt(s.p)
    ensures exists op :: Loses(s, op)
  {
    NoWritersInDoubt(s);
    var was := Replay(s.log);
    var v := if "k" in was && was["k"] == "v" then "w" else "v";
    var op := Put("k", v);
    ReplayOne(s.log, op);
    if s.p.staged.Some? { StagedLoses(s, op); } else { KeptLoses(s, op); }
  }

  lemma StagedLoses(s: State, op: Op)
    requires s.p.staged.Some? && s.p.staged.value.gen != s.p.gen && s.writers == map[] && op.Put?
    requires Ns(s.p.data, s.p.staged.value.gen) in {Replay(s.log), map[]}
    requires Replay(s.log + [op]) == Apply(Replay(s.log), op) && Apply(Replay(s.log), op) != Replay(s.log)
    ensures Loses(s, op)
  {
    assert op.key in Replay(s.log + [op]);
  }

  lemma KeptLoses(s: State, op: Op)
    requires s.p.prev.Some? && s.p.staged.None? && s.p.prev.value != s.p.gen && s.writers == map[]
    requires Ns(s.p.data, s.p.prev.value) == Replay(s.log)
    requires Replay(s.log + [op]) == Apply(Replay(s.log), op) && Apply(Replay(s.log), op) != Replay(s.log)
    ensures Loses(s, op)
  {}
}
