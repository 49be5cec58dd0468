/** A partition's rotation generations: Stage, Activate, Commit, Rollback and restart, as values. */
module Generations {
  import opened Prelude

  type Store = map<string, string>

  datatype Error = RotationInProgress | NothingStaged

  /** A prepared next generation. */
  datatype Staged = Staged(gen: nat, handle: nat, seeded: bool)

  /** `handle` identifies a datastore object; a handle is never reused. `seeded` is history: the
      active generation holds the seed. */
  datatype Partition = Partition(
    gen: nat,
    handle: nat,
    staged: Option<Staged>,
    prev: Option<nat>,
    oldHandle: Option<nat>,
    data: map<nat, Store>,
    savedGen: Option<nat>,
    savedPrev: Option<nat>,
    frozen: bool,
    blockReads: bool,
    inflight: nat,
    nextHandle: nat,
    seeded: bool)

  /** The backing store's namespace of one generation. */
  function Ns(data: map<nat, Store>, g: nat): Store {
    if g in data then data[g] else map[]
  }

  function Live(p: Partition): Store { Ns(p.data, p.gen) }

  predicate InDoubt(p: Partition) { p.prev.Some? || p.staged.Some? }

  function Save(p: Partition): Partition {
    p.(savedGen := Some(p.gen), savedPrev := p.prev)
  }

  /** Opens generation gen + 1 over whatever its namespace holds and, when seeding, puts the live
      entries on top. */
  function Stage(p: Partition, seed: bool): Result<Partition, Error> {
    if InDoubt(p) then Err(RotationInProgress)
    else
      var found := Ns(p.data, p.gen + 1);
      Ok(p.(staged := Some(Staged(p.gen + 1, p.nextHandle, seed)),
            data := p.data[p.gen + 1 := if seed then found + Live(p) else found],
            nextHandle := p.nextHandle + 1))
  }

  function Activate(p: Partition, waitSeed: bool): Result<Partition, Error> {
    if p.staged.None? then Err(NothingStaged)
    else
      var st := p.staged.value;
      Ok(Save(p.(prev := Some(p.gen), oldHandle := Some(p.handle),
                 gen := st.gen, handle := st.handle, seeded := st.seeded, staged := None,
                 blockReads := p.blockReads || waitSeed)))
  }

  function Commit(p: Partition): Partition {
    var p' := Save(p.(prev := None, oldHandle := None));
    if p.prev.Some? then p'.(data := p.data - {p.prev.value}) else p'
  }

  function Rollback(p: Partition): Partition {
    var p' :=
      if p.staged.Some? then p.(staged := None, data := p.data - {p.staged.value.gen})
      else if p.prev.Some? then
        p.(gen := p.prev.value, prev := None, oldHandle := None, seeded := true,
           handle := if p.oldHandle.Some? then p.oldHandle.value else p.nextHandle,
           nextHandle := if p.oldHandle.Some? then p.nextHandle else p.nextHandle + 1,
           data := p.data - {p.gen})
      else p;
    Save(p').(blockReads := false)
  }

  /** Only the backing store survives; a rotation that was activated leaves the writes frozen. */
  function Restart(p: Partition): Partition {
    p.(gen := if p.savedGen.Some? then p.savedGen.value else 0,
       prev := p.savedPrev, staged := None, oldHandle := None,
       handle := p.nextHandle, nextHandle := p.nextHandle + 1,
       frozen := p.savedPrev.Some?, blockReads := false, inflight := 0)
  }

  // ---- the generation invariant ----

  /** Generations whose namespace may hold anything. */
  predicate InUse(p: Partition, g: nat) {
    g == p.gen || (p.staged.Some? && g == p.staged.value.gen) || p.prev == Some(g)
  }

  ghost predicate Clean(p: Partition) {
    && !(p.staged.Some? && p.prev.Some?)
    && (p.staged.Some? ==> p.staged.value.gen == p.gen + 1)
    && (p.prev.Some? ==> p.prev.value + 1 == p.gen)
    && (forall g: nat :: !InUse(p, g) ==> Ns(p.data, g) == map[])
    && (if p.savedGen.Some? then p.savedGen.value == p.gen else p.gen == 0)
    && p.savedPrev == p.prev
  }

  lemma StageClean(p: Partition, seed: bool)
    requires Clean(p) && !InDoubt(p)
    ensures Clean(Stage(p, seed).value)
  {
    var q := Stage(p, seed).value;
    forall g: nat | !InUse(q, g) ensures Ns(q.data, g) == map[] { assert !InUse(p, g); }
  }

  lemma ActivateClean(p: Partition, wait: bool)
    requires Clean(p) && p.staged.Some?
    ensures Clean(Activate(p, wait).value)
  {
    var q := Activate(p, wait).value;
    forall g: nat | !InUse(q, g) ensures Ns(q.data, g) == map[] { assert !InUse(p, g); }
  }

  lemma CommitClean(p: Partition)
    requires Clean(p)
    ensures Clean(Commit(p))
  {
    forall g: nat | !InUse(Commit(p), g) ensures Ns(Commit(p).data, g) == map[] {
      if p.prev != Some(g) { assert !InUse(p, g); }
    }
  }

  lemma RollbackClean(p: Partition)
    requires Clean(p)
    ensures Clean(Rollback(p))
  {
    forall g: nat | !InUse(Rollback(p), g) ensures Ns(Rollback(p).data, g) == map[] {
      if g != p.gen && (p.staged.Some? ==> g != p.staged.value.gen) { assert !InUse(p, g); }
    }
  }

  /** Every operation, from every clean partition, keeps the generations in order and every other
      namespace empty; Stage is refused exactly while a rotation is pending. */
  lemma OperationsKeepClean(p: Partition, seed: bool, wait: bool)
    requires Clean(p)
    ensures Stage(p, seed).Ok? <==> p.staged.None? && p.prev.None?
    ensures Stage(p, seed).Ok? ==> Clean(Stage(p, seed).value)
    ensures Activate(p, wait).Ok? ==> Clean(Activate(p, wait).value)
    ensures Clean(Commit(p)) && Clean(Rollback(p))
  {
    if !InDoubt(p) { StageClean(p, seed); }
    if p.staged.Some? { ActivateClean(p, wait); }
    CommitClean(p);
    RollbackClean(p);
  }

  /** A restart forgets a staged generation without purging it, so it keeps the invariant exactly
      when nothing was staged or the staged namespace was still empty. */
  lemma RestartKeepsCleanIff(p: Partition)
    requires Clean(p)
    ensures Clean(Restart(p)) <==> p.staged.None? || Ns(p.data, p.staged.value.gen) == map[]
  {
    var q := Restart(p);
    assert q.gen == p.gen && q.prev == p.prev;
    if p.staged.Some? { assert !InUse(q, p.staged.value.gen); }
    if p.staged.None? || Ns(p.data, p.staged.value.gen) == map[] {
      forall g: nat | !InUse(q, g) ensures Ns(q.data, g) == map[] {
        if p.staged.Some? && g == p.staged.value.gen {} else { assert !InUse(p, g); }
      }
    }
  }

  /** Undoing a rotation goes back to the kept generation, untouched. */
  lemma RollbackOfActive(p: Partition)
    requires Clean(p) && p.prev.Some?
    ensures Live(Rollback(p)) == Ns(p.data, p.prev.value) && Rollback(p).gen == p.prev.value
    ensures !InDoubt(Rollback(p))
    ensures p.oldHandle.Some? ==> Rollback(p).handle == p.oldHandle.value
  {}

  lemma RollbackOfStaged(p: Partition, seed: bool)
    requires Clean(p) && !InDoubt(p)
    ensures var q := Rollback(Stage(p, seed).value);
      Live(q) == Live(p) && q.gen == p.gen && q.handle == p.handle && !InDoubt(q)
  {}

  // ---- whole runs ----

  /** The engine's operations, restarts, and any rewriting of the active generation by writes or by blocks
      arriving from other replicas. */
  datatype Op = OpStage(seed: bool) | OpActivate(wait: bool) | OpCommit | OpRollback | OpRestart | OpStore(live: Store)

  /** A refused operation changes nothing. */
  function Do(p: Partition, op: Op): Partition {
    match op
    case OpStage(seed) => (match Stage(p, seed) case Ok(q) => q case Err(_) => p)
    case OpActivate(wait) => (match Activate(p, wait) case Ok(q) => q case Err(_) => p)
    case OpCommit => Commit(p)
    case OpRollback => Rollback(p)
    case OpRestart => Restart(p)
    case OpStore(live) => p.(data := p.data[p.gen := live])
  }

  function DoAll(p: Partition, ops: seq<Op>, n: nat): Partition
    requires n <= |ops|
  {
    if n == 0 then p else Do(DoAll(p, ops, n - 1), ops[n - 1])
  }

  /** Restarting here would leave a staged seed behind. */
  predicate LeavesSeed(p: Partition, op: Op) {
    op.OpRestart? && p.staged.Some? && Ns(p.data, p.staged.value.gen) != map[]
  }

  lemma StepKeepsClean(p: Partition, op: Op)
    requires Clean(p)
    ensures Clean(Do(p, op)) <==> !LeavesSeed(p, op)
  {
    match op
    case OpStage(seed) => OperationsKeepClean(p, seed, false);
    case OpActivate(wait) => OperationsKeepClean(p, false, wait);
    case OpCommit => CommitClean(p);
    case OpRollback => RollbackClean(p);
    case OpRestart => RestartKeepsCleanIff(p);
    case OpStore(live) =>
      var q := Do(p, op);
      forall g: nat | !InUse(q, g) ensures Ns(q.data, g) == map[] { assert !InUse(p, g); }
  }

  /** Over every run from a clean partition in which no restart catches a staged seed: never both staged and
      previous, staged = gen + 1, previous = gen - 1, and every other namespace is empty. */
  lemma {:induction false} RunsKeepClean(p: Partition, ops: seq<Op>, n: nat)
    requires Clean(p) && n <= |ops|
    requires forall i :: 0 <= i < n ==> !LeavesSeed(DoAll(p, ops, i), ops[i])
    ensures Clean(DoAll(p, ops, n))
  {
    if n > 0 {
      RunsKeepClean(p, ops, n - 1);
      StepKeepsClean(DoAll(p, ops, n - 1), ops[n - 1]);
    }
  }

  /** Generation g is kept aside with these entries. */
  predicate Keeps(p: Partition, g: nat, live: Store) { p.prev == Some(g) && Ns(p.data, g) == live }

  lemma {:induction false} KeptThroughout(p: Partition, ops: seq<Op>, n: nat, g: nat, live: Store)
    requires Clean(p) && Keeps(p, g, live) && n <= |ops|
    requires forall i :: 0 <= i < n ==> !ops[i].OpCommit? && !ops[i].OpRollback?
    ensures Clean(DoAll(p, ops, n)) && Keeps(DoAll(p, ops, n), g, live)
  {
    if n > 0 {
      KeptThroughout(p, ops, n - 1, g, live);
      StepKeepsClean(DoAll(p, ops, n - 1), ops[n - 1]);
    }
  }

  /** However often the node restarts and whatever arrives between activation and rollback, rolling back gives
      back the generation and the live map there were before Stage. */
  lemma RollbackRestoresAfterRun(p: Partition, seed: bool, wait: bool, ops: seq<Op>)
    requires Clean(p) && !InDoubt(p)
    requires forall i :: 0 <= i < |ops| ==> !ops[i].OpCommit? && !ops[i].OpRollback?
    ensures
      var q := DoAll(Activate(Stage(p, seed).value, wait).value, ops, |ops|);
      var r := Rollback(q);
      Live(r) == Live(p) && r.gen == p.gen && !InDoubt(r) && Clean(r)
  {
    var a := Activate(Stage(p, seed).value, wait).value;
    StageClean(p, seed);
    ActivateClean(Stage(p, seed).value, wait);
    KeptThroughout(a, ops, |ops|, p.gen, Live(p));
    RollbackOfActive(DoAll(a, ops, |ops|));
    RollbackClean(DoAll(a, ops, |ops|));
  }

  /** Stage with a seed, Activate, Commit: the compacted generation has the same live map. */
  lemma RotationKeepsLive(p: Partition)
    requires Clean(p) && !InDoubt(p)
    ensures
      var q := Commit(Activate(Stage(p, true).value, false).value);
      Live(q) == Live(p) && q.gen == p.gen + 1 && Clean(q) && !InDoubt(q)
      && forall g: nat :: g != q.gen ==> Ns(q.data, g) == map[]
  {
    var s := Stage(p, true).value;
    StageClean(p, true);
    ActivateClean(s, false);
    assert Ns(p.data, p.gen + 1) == map[] by { assert !InUse(p, p.gen + 1); }
    var a := Activate(s, false).value;
    CommitClean(a);
    var q := Commit(a);
    assert Live(s) == Live(p) && Live(a) == map[] + Live(p) == Live(p);
    forall g: nat | g != q.gen ensures Ns(q.data, g) == map[] { assert !InUse(q, g); }
  }

  /** A crash between Stage and Activate is not harmless: the abandoned seed is still in the
      namespace the next rotation opens, and a key deleted since comes back to life. */
  lemma StagedCrashResurrects()
    ensures
      var p := Partition(0, 0, None, None, None, map[0 := map["k" := "v"]], None, None, false, false, 0, 1, true);
      var crashed := Restart(Stage(p, true).value);
      var deleted := crashed.(data := crashed.data[0 := Live(crashed) - {"k"}]);
      var q := Commit(Activate(Stage(deleted, true).value, false).value);
      && Clean(p) && !Clean(crashed) && "k" !in Live(deleted) && "k" in Live(q)
  {
    var p := Partition(0, 0, None, None, None, map[0 := map["k" := "v"]], None, None, false, false, 0, 1, true);
    var staged := Stage(p, true).value;
    assert Clean(p) by { assert forall g: nat :: g != 0 ==> g !in p.data; }
    StageClean(p, true);
    assert Ns(staged.data, 1) == map[] + map["k" := "v"];
    assert "k" in Ns(staged.data, 1);
    RestartKeepsCleanIff(staged);
    var crashed := Restart(staged);
    var deleted := crashed.(data := crashed.data[0 := Live(crashed) - {"k"}]);
    var again := Stage(deleted, true).value;
    assert "k" in Ns(deleted.data, 1) && "k" in Ns(again.data, 1);
  }

  // ---- a crash between saving the generation and purging the other one ----

  function CommitCut(p: Partition): Partition { Restart(Commit(p).(data := p.data)) }

  function RollbackCut(p: Partition): Partition { Restart(Rollback(p).(data := p.data)) }

  function Rotated(p: Partition): Partition
    requires !InDoubt(p)
  {
    Commit(Activate(Stage(p, true).value, false).value)
  }

  /** After Commit the live map is right and stays right through the next rotation: the old entries are left
      behind, in a generation that is never opened again. */
  lemma CommitCutHarmless(p: Partition)
    requires Clean(p) && p.prev.Some?
    ensures var q := CommitCut(p);
      && !InDoubt(q) && Live(q) == Live(p) && Live(Rotated(q)) == Live(p)
      && (Clean(q) <==> Ns(p.data, p.prev.value) == map[])
  {
    var q := CommitCut(p);
    assert !InUse(q, p.prev.value) && !InUse(p, p.gen + 1);
    assert map[] + Live(p) == Live(p);
    if Ns(p.data, p.prev.value) == map[] {
      forall g: nat | !InUse(q, g) ensures Ns(q.data, g) == map[] {
        if g != p.prev.value { assert !InUse(p, g); }
      }
    }
  }

  /** The generation a rollback drops. */
  function Dropped(p: Partition): nat { if p.staged.Some? then p.staged.value.gen else p.gen }

  /** A rotation puts the live entries on top of what the next namespace holds. */
  lemma RotatedLive(p: Partition)
    requires !InDoubt(p)
    ensures Live(Rotated(p)) == Ns(p.data, p.gen + 1) + Live(p)
  {}

  lemma OverlayIff(under: Store, live: Store)
    ensures under + live == live <==> under.Keys <= live.Keys
  {
    assert (under + live).Keys == under.Keys + live.Keys;
  }

  /** A rotation keeps the live map exactly when every key the next namespace already holds is live anyway. */
  lemma RotatedKeepsIff(p: Partition)
    requires !InDoubt(p)
    ensures Live(Rotated(p)) == Live(p) <==> Ns(p.data, p.gen + 1).Keys <= Live(p).Keys
  {
    RotatedLive(p);
    OverlayIff(Ns(p.data, p.gen + 1), Live(p));
  }

  /** The generation is settled and saved. */
  predicate Settled(p: Partition) { !InDoubt(p) && p.savedGen == Some(p.gen) && p.savedPrev == None }

  /** Whatever lies in the next namespace stays there, through writes, restarts and idle commits and rollbacks, until
      the next Stage. */
  lemma {:induction false} LeftoverStays(p: Partition, ops: seq<Op>, n: nat)
    requires Settled(p) && n <= |ops| && forall i :: 0 <= i < n ==> !ops[i].OpStage?
    ensures var q := DoAll(p, ops, n);
      Settled(q) && q.gen == p.gen && Ns(q.data, q.gen + 1) == Ns(p.data, p.gen + 1)
  {
    if n > 0 { LeftoverStays(p, ops, n - 1); }
  }

  lemma NextRotationKeepsIff(p: Partition, ops: seq<Op>, n: nat)
    requires Settled(p) && n <= |ops| && forall i :: 0 <= i < n ==> !ops[i].OpStage?
    ensures var q := DoAll(p, ops, n);
      !InDoubt(q) && (Live(Rotated(q)) == Live(q) <==> Ns(p.data, p.gen + 1).Keys <= Live(q).Keys)
  {
    LeftoverStays(p, ops, n);
    RotatedKeepsIff(DoAll(p, ops, n));
  }

  /** After Rollback the live map is right too, but what was to be dropped is in the next generation to open. After
      any run up to the next rotation, that rotation keeps the live map exactly when every leftover key is live
      then. */
  lemma RollbackCutIff(p: Partition, ops: seq<Op>, n: nat)
    requires Clean(p) && InDoubt(p) && n <= |ops| && forall i :: 0 <= i < n ==> !ops[i].OpStage?
    ensures Live(RollbackCut(p)) == Live(Rollback(p))
    ensures var q := DoAll(RollbackCut(p), ops, n);
      && !InDoubt(q)
      && (Live(Rotated(q)) == Live(q) <==> Ns(p.data, Dropped(p)).Keys <= Live(q).Keys)
  {
    RollbackCutSettled(p);
    NextRotationKeepsIff(RollbackCut(p), ops, n);
  }

  lemma RollbackCutSettled(p: Partition)
    requires Clean(p) && InDoubt(p)
    ensures var q := RollbackCut(p);
      Settled(q) && q.gen + 1 == Dropped(p) && q.data == p.data && Live(q) == Live(Rollback(p))
  {}

  const ENTRY: Store := map["k" := "v"]

  function TwoCopies(): Partition {
    Partition(1, 1, None, Some(0), Some(0), map[0 := ENTRY, 1 := ENTRY], Some(1), Some(0), true, false, 0, 2, true)
  }

  /** A rotation rolled back, a crash before the purge, a key deleted: the next rotation brings it back. */
  lemma RollbackCutResurrects()
    ensures Clean(TwoCopies())
    ensures var q := Do(RollbackCut(TwoCopies()), OpStore(map[]));
      !InDoubt(q) && "k" !in Live(q) && "k" in Live(Rotated(q))
  {
    var p := TwoCopies();
    assert Clean(p) by { assert forall g: nat :: !InUse(p, g) ==> g !in p.data; }
    RollbackCutSettled(p);
    var q := Do(RollbackCut(p), OpStore(map[]));
    assert Ns(q.data, 1) == ENTRY;
    RotatedLive(q);
  }
}
