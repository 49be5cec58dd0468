/** One partition of the engine as the object its methods update. */
module Engine {
  import opened Prelude
  import opened Generations
  import W = Writes

  /** Copies entries one by one into a batch, in whatever order the query yields them. */
  method CopyEntries(cur: Store, into: Store) returns (out: Store, n: nat)
    ensures out == into + cur && n == |cur|
  {
    out, n := into, 0;
    CopyEnds(cur, into);
    var left := cur.Keys;
    while left != {}
      invariant n + |left| == |cur.Keys| && left <= cur.Keys
      invariant Copied(cur, into, left, out)
      decreases |left|
    {
      var k: string :| k in left;
      CopyNext(cur, into, left, out, k);
      out := out[k := cur[k]];
      left := left - {k};
      n := n + 1;
    }
  }

  /** Everything but what is left has been copied. */
  ghost predicate Copied(cur: Store, into: Store, left: set<string>, out: Store) {
    out == into + (cur - left)
  }

  lemma CopyEnds(cur: Store, into: Store)
    ensures Copied(cur, into, cur.Keys, into) && Copied(cur, into, {}, into + cur)
  {
    assert cur - {} == cur;
  }

  lemma CopyNext(cur: Store, into: Store, left: set<string>, out: Store, k: string)
    requires Copied(cur, into, left, out) && k in left && k in cur
    ensures Copied(cur, into, left - {k}, out[k := cur[k]])
  {}

  /** The next generation's namespace, with the live entries copied into it when seeding. */
  method Seeded(data: map<nat, Store>, gen: nat, seed: bool) returns (next: Store, n: nat)
    ensures next == if seed then Ns(data, gen + 1) + Ns(data, gen) else Ns(data, gen + 1)
    ensures n == if seed then |Ns(data, gen)| else 0
  {
    next, n := Ns(data, gen + 1), 0;
    if seed { next, n := CopyEntries(Ns(data, gen), next); }
  }

  class PartitionObject {
    var gen: nat
    var handle: nat
    var staged: Option<Staged>
    var prev: Option<nat>
    var oldHandle: Option<nat>
    var data: map<nat, Store>              // the backing store, by generation namespace
    var savedGen: Option<nat>
    var savedPrev: Option<nat>
    var frozen: bool
    var blockReads: bool
    var inflight: nat
    var nextHandle: nat
    ghost var seeded: bool

    ghost function View(): (p: Partition)
      reads this
    {
      Partition(gen, handle, staged, prev, oldHandle, data, savedGen, savedPrev,
                frozen, blockReads, inflight, nextHandle, seeded)
    }

    constructor ()
      ensures View() == Partition(0, 0, None, None, None, map[], None, None, false, false, 0, 1, true)
    {
      gen, handle, staged, prev, oldHandle, data := 0, 0, None, None, None, map[];
      savedGen, savedPrev, frozen, blockReads, inflight, nextHandle := None, None, false, false, 0, 1;
      seeded := true;
    }

    // ---- the gate ----

    /** beginWrite, when it does not have to wait. */
    method BeginWrite() returns (ok: bool)
      modifies this`inflight
      ensures ok <==> !frozen
      ensures inflight == old(inflight) + if ok then 1 else 0
    {
      ok := !frozen;
      if ok { inflight := inflight + 1; }
    }

    method EndWrite()
      requires inflight > 0
      modifies this`inflight
      ensures inflight == old(inflight) - 1
    {
      inflight := inflight - 1;
    }

    /** freeze: true once nothing is in flight. */
    method Freeze() returns (drained: bool)
      modifies this`frozen
      ensures frozen && (drained <==> inflight == 0)
    {
      frozen := true;
      drained := inflight == 0;
    }

    method Unfreeze()
      modifies this`frozen, this`blockReads
      ensures !frozen && !blockReads
    {
      frozen, blockReads := false, false;
    }

    // ---- writes ----

    /** Put and Delete: admitted by the gate, applied to the active datastore. */
    method Write(op: W.Op) returns (ok: bool)
      modifies this`inflight, this`data
      ensures ok <==> !frozen
      ensures inflight == old(inflight)
      ensures data == if ok then old(data)[gen := W.Apply(Ns(old(data), gen), op)] else old(data)
    {
      ok := BeginWrite();
      if !ok { return; }
      var cur := Ns(data, gen);
      match op {
        case Put(k, v) => data := data[gen := cur[k := v]];
        case Delete(k) => data := data[gen := cur - {k}];
      }
      EndWrite();
    }

    // ---- rotation ----

    method SaveGen()
      modifies this`savedGen, this`savedPrev
      ensures View() == Save(old(View()))
    {
      savedGen := Some(gen);
      savedPrev := prev;
    }

    method PurgeNamespace(g: nat)
      modifies this`data
      ensures data == old(data) - {g}
    {
      if g !in data { assert data == data - {g}; return; }
      while data[g] != map[]
        invariant g in data && data - {g} == old(data) - {g}
        decreases |data[g]|
      {
        var k :| k in data[g];
        var rest := data[g] - {k};
        assert rest.Keys == data[g].Keys - {k};
        assert data[g := rest] - {g} == data - {g};
        data := data[g := rest];
      }
      data := data - {g};
    }

    method StageGen(seed: bool) returns (r: Result<nat, Error>)
      modifies this`staged, this`data, this`nextHandle
      ensures r.Ok? <==> Stage(old(View()), seed).Ok?
      ensures r.Err? ==> View() == old(View())
      ensures r.Ok? ==> View() == Stage(old(View()), seed).value && (seed ==> r.value == |Live(old(View()))|)
    {
      if staged.Some? || prev.Some? { return Err(RotationInProgress); }
      var next, n := Seeded(data, gen, seed);
      data := data[gen + 1 := next];
      staged := Some(Staged(gen + 1, nextHandle, seed));
      nextHandle := nextHandle + 1;
      return Ok(n);
    }

    method ActivateGen(waitSeed: bool) returns (ok: bool)
      modifies this
      ensures ok <==> Activate(old(View()), waitSeed).Ok?
      ensures View() == if ok then Activate(old(View()), waitSeed).value else old(View())
    {
      if staged.None? { return false; }
      var st := staged.value;
      oldHandle, prev := Some(handle), Some(gen);
      handle, gen, seeded := st.handle, st.gen, st.seeded;
      staged := None;
      if waitSeed { blockReads := true; }
      SaveGen();
      return true;
    }

    method CommitGen()
      modifies this
      ensures View() == Commit(old(View()))
    {
      var had := prev;
      oldHandle, prev := None, None;
      SaveGen();
      if had.Some? { PurgeNamespace(had.value); }
    }

    method RollbackGen()
      modifies this
      ensures View() == Rollback(old(View()))
    {
      var drop := None;
      if staged.Some? {
        drop := Some(staged.value.gen);
        staged := None;
      } else if prev.Some? {
        drop := Some(gen);
        if oldHandle.Some? {
          handle := oldHandle.value;
        } else {
          handle, nextHandle := nextHandle, nextHandle + 1;  // restarted mid-rotation: reopen
        }
        gen, prev, oldHandle, seeded := prev.value, None, None, true;
      }
      SaveGen();
      if drop.Some? { PurgeNamespace(drop.value); }
      blockReads := false;
    }

    method RestartPartition()
      modifies this
      ensures View() == Restart(old(View()))
    {
      gen := if savedGen.Some? then savedGen.value else 0;
      prev, staged, oldHandle := savedPrev, None, None;
      handle, nextHandle := nextHandle, nextHandle + 1;
      frozen, blockReads, inflight := savedPrev.Some?, false, 0;
    }

    method SwitchOver()
      requires staged.Some?
      modifies this
      ensures View() == Commit(Activate(old(View()), false).value)
    {
      var ok := ActivateGen(false);
      CommitGen();
    }

    /** Compaction on one node: the live map is carried over unchanged, every other namespace is
        emptied, and writes are let through again. */
    method RotatePartition() returns (r: Result<nat, Error>)
      requires Clean(View())
      modifies this
      ensures Clean(View()) && !frozen
      ensures r.Ok? <==> old(inflight) == 0 && !InDoubt(old(View()))
      ensures r.Ok? ==> r.value == |Live(old(View()))| && gen == old(gen) + 1
      ensures r.Ok? ==> forall g: nat :: g != gen ==> Ns(data, g) == map[]
      ensures !InDoubt(old(View())) ==> Live(View()) == Live(old(View()))
      ensures InDoubt(old(View())) ==> View() == old(View()).(frozen := false, blockReads := false)
    {
      ghost var p0 := View();
      var drained := Freeze();
      ghost var p1 := View();
      GateKeepsClean(p0, p1);
      if !drained {
        Unfreeze();
        GateKeepsClean(p1, View());
        return Err(RotationInProgress);
      }
      var n := StageGen(true);
      if n.Err? {
        Unfreeze();
        GateKeepsClean(p1, View());
        return n;
      }
      SwitchOver();
      RotationKeepsLive(p1);
      ghost var p2 := View();
      Unfreeze();
      GateKeepsClean(p2, View());
      return n;
    }
  }

  /** What the methods above do to the partition is what the steps of module Writes do to it: the gate admits a
      write exactly when Begin is enabled, and a freeze that drained out of doubt is what enables staging. */
  lemma MethodsAreSteps(s: W.State, a: W.Action)
    ensures a.Begin? && a.w !in s.writers ==> (W.Enabled(s, a) <==> !s.p.frozen)
    ensures a.DoStage? ==> (W.Enabled(s, a) <==> s.p.frozen && s.p.inflight == 0 && Stage(s.p, a.seed).Ok?)
    ensures W.Enabled(s, a) ==>
      var p, q := s.p, W.Next(s, a).p;
      match a
      case Begin(_, _) => q == p.(inflight := p.inflight + 1)
      case End(_) => p.inflight > 0 && q == p.(inflight := p.inflight - 1)
      case Write(w) => q == p.(data := p.data[p.gen := W.Apply(Ns(p.data, p.gen), s.writers[w].op)])
      case Freeze => q == p.(frozen := true)
      case Unfreeze => q == p.(frozen := false, blockReads := false)
      case DoStage(seed) => Stage(p, seed) == Ok(q)
      case DoActivate(wait) => Activate(p, wait) == Ok(q)
      case DoCommit => q == Commit(p)
      case DoRollback => q == Rollback(p)
      case DoRestart => q == Restart(p)
      case _ => true
  {}

  lemma GateKeepsClean(p: Partition, q: Partition)
    requires Clean(p) && q == p.(frozen := q.frozen, blockReads := q.blockReads)
    ensures Clean(q) && Live(q) == Live(p)
  {
    forall g: nat | !InUse(q, g) ensures Ns(q.data, g) == map[] { assert !InUse(p, g); }
  }

  // ---- generation-tagged broadcasts ----

  function GenBytes(gen: nat): seq<nat> {
    [gen / 0x100_0000 % 256, gen / 0x1_0000 % 256, gen / 256 % 256, gen % 256]
  }

  const MAGIC: seq<nat> := [114, 103, 101, 110]

  function WrapGen(gen: nat, data: seq<nat>): seq<nat> { MAGIC + GenBytes(gen) + data }

  function UnwrapGen(b: seq<nat>): Option<(nat, seq<nat>)> {
    if |b| < 8 || b[..4] != MAGIC then None
    else Some((b[4] * 0x100_0000 + b[5] * 0x1_0000 + b[6] * 256 + b[7], b[8..]))
  }

  /** What pump hands to the current view: only the payload of its own generation. */
  function Delivered(b: seq<nat>, viewGen: nat): Option<seq<nat>> {
    var u := UnwrapGen(b);
    if u.Some? && u.value.0 == viewGen then Some(u.value.1) else None
  }

  /** Within 32-bit generation numbers a broadcast reaches exactly the replicas that are on the
      sender's generation, unchanged. */
  lemma OnlyOwnGenerationDelivered(gen: nat, viewGen: nat, data: seq<nat>)
    requires gen < 0x1_0000_0000
    ensures Delivered(WrapGen(gen, data), viewGen) == if gen == viewGen then Some(data) else None
  {
    var b := WrapGen(gen, data);
    assert b[..4] == MAGIC && b[8..] == data && b[4..8] == GenBytes(gen);
    GenFromBytes(gen);
  }

  lemma GenFromBytes(gen: nat)
    requires gen < 0x1_0000_0000
    ensures var b := GenBytes(gen); b[0] * 0x100_0000 + b[1] * 0x1_0000 + b[2] * 256 + b[3] == gen
  {
    var a := gen / 256;
    var c := a / 256;
    assert gen / 0x1_0000 == c && gen / 0x100_0000 == c / 256;
  }
}
