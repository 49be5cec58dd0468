/** Streams and consumer groups: IDs, the max-merged registers, delivery and the pending list, as a
    state machine of one node's steps and of what may arrive from others. */
module Streams {
  import opened Prelude
  import opened ByteStrings
  import opened Hlc
  import opened Slots

  const DISC: nat := 0x1_0000

  datatype ID = ID(ms: nat, seqNo: nat)

  const ZERO := ID(0, 0)

  predicate IsID(id: ID) { id.ms < U64 && id.seqNo < U64 }

  function Cmp(a: ID, b: ID): int {
    if a.ms != b.ms then (if a.ms < b.ms then -1 else 1)
    else if a.seqNo != b.seqNo then (if a.seqNo < b.seqNo then -1 else 1)
    else 0
  }

  predicate Lt(a: ID, b: ID) { Cmp(a, b) < 0 }

  predicate Le(a: ID, b: ID) { Cmp(a, b) <= 0 }

  predicate Ascending(s: seq<ID>) { forall i, j :: 0 <= i < j < |s| ==> Lt(s[i], s[j]) }

  // ---- minting IDs ----

  datatype Mode = Auto | AutoSeq(ms: nat) | Explicit(id: ID)

  datatype Error = TooSmall | IsZero | NoGroup | GroupExists

  /** Strictly after last within its millisecond, in 64-bit arithmetic. */
  function Bump(last: ID, disc: nat): ID {
    ID(last.ms, (last.seqNo / DISC + 1) * DISC % U64 + disc)
  }

  function NextId(now: nat, last: ID, mode: Mode, disc: nat): Result<ID, Error> {
    match mode
    case Auto => Ok(if now > last.ms then ID(now, disc) else Bump(last, disc))
    case AutoSeq(ms) =>
      if ms > last.ms then Ok(ID(ms, if ms == 0 && disc == 0 then 1 else disc))
      else if ms == last.ms then Ok(Bump(last, disc))
      else Err(TooSmall)
    case Explicit(id) =>
      if id == ZERO then Err(IsZero)
      else if Cmp(id, last) <= 0 then Err(TooSmall)
      else Ok(id)
  }

  /** The 48-bit counter above the discriminator is used up within the millisecond. */
  predicate Exhausted(now: nat, last: ID, mode: Mode) {
    last.seqNo / DISC == U64 / DISC - 1 &&
    ((mode.Auto? && now <= last.ms) || (mode.AutoSeq? && mode.ms == last.ms))
  }

  /** A minted ID is above everything in the stream exactly when the counter is not exhausted. */
  lemma MintedAboveIff(now: nat, last: ID, mode: Mode, disc: nat)
    requires IsID(last) && disc < DISC && NextId(now, last, mode, disc).Ok?
    ensures Lt(last, NextId(now, last, mode, disc).value) <==> !Exhausted(now, last, mode)
  {}

  lemma ExhaustedGoesBack()
    ensures var last := ID(5, U64 - 1);
      NextId(5, last, Auto, 7) == Ok(ID(5, 7)) && Lt(ID(5, 7), last)
  {}

  predicate Mints(mode: Mode) { !mode.Explicit? }

  /** Replicas with different discriminators never mint the same ID, whatever each has seen. */
  lemma MintedIdsDistinct(now: nat, last: ID, mode: Mode, disc: nat, now': nat, last': ID, mode': Mode, disc': nat)
    requires Mints(mode) && Mints(mode') && disc < DISC && disc' < DISC && disc != disc'
    requires NextId(now, last, mode, disc).Ok? && NextId(now', last', mode', disc').Ok?
    ensures NextId(now, last, mode, disc) != NextId(now', last', mode', disc')
  {
    MintedCarriesDisc(now, last, mode, disc);
    MintedCarriesDisc(now', last', mode', disc');
  }

  lemma MintedCarriesDisc(now: nat, last: ID, mode: Mode, disc: nat)
    requires Mints(mode) && disc < DISC && NextId(now, last, mode, disc).Ok?
    ensures NextId(now, last, mode, disc).value.seqNo % DISC == disc
  {
    var k := last.seqNo / DISC + 1;
    assert k * DISC % U64 == k % (U64 / DISC) * DISC;
  }

  // ---- max-merged registers ----

  /** A replica's last-delivered register. */
  datatype Reg = Reg(epoch: nat, id: ID)

  predicate Above(a: Reg, b: Reg) { a.epoch > b.epoch || (a.epoch == b.epoch && Lt(b.id, a.id)) }

  /** The merge of all registers: the greatest, or (0, 0-0) when none is above it. */
  ghost predicate IsMerged(regs: map<Bytes, Reg>, m: Reg) {
    (forall r :: r in regs ==> !Above(regs[r], m)) &&
    (m == Reg(0, ZERO) || exists r :: r in regs && regs[r] == m)
  }

  lemma {:induction false} MergedExists(regs: map<Bytes, Reg>) returns (m: Reg)
    ensures IsMerged(regs, m)
    decreases |regs|
  {
    if regs == map[] {
      m := Reg(0, ZERO);
    } else {
      var r :| r in regs;
      var rest := regs - {r};
      assert rest.Keys == regs.Keys - {r};
      m := MergedExists(rest);
      assert forall q :: q in regs && q != r ==> rest[q] == regs[q];
      if Above(regs[r], m) { m := regs[r]; }
    }
  }

  ghost function Merged(regs: map<Bytes, Reg>): (m: Reg)
    ensures IsMerged(regs, m)
  {
    assert exists m :: IsMerged(regs, m) by { var m := MergedExists(regs); }
    var m :| IsMerged(regs, m); m
  }

  lemma MergedUnique(regs: map<Bytes, Reg>, m: Reg)
    requires IsMerged(regs, m)
    ensures m == Merged(regs)
  {}

  /** Writing a register above the merge makes it the merge. */
  lemma MergedSet(regs: map<Bytes, Reg>, r: Bytes, reg: Reg)
    requires Above(reg, Merged(regs))
    ensures Merged(regs[r := reg]) == reg
  {
    assert regs[r := reg][r] == reg;
    MergedUnique(regs[r := reg], reg);
  }

  /** loadGroups: the merge does not depend on the order the registers are met in. */
  method LoadRegister(regs: map<Bytes, Reg>) returns (m: Reg)
    ensures m == Merged(regs)
  {
    m := Reg(0, ZERO);
    var left: set<Bytes> := regs.Keys;
    while left != {}
      invariant forall r :: r in left ==> r in regs
      invariant forall r :: r in regs && r !in left ==> !Above(regs[r], m)
      invariant m == Reg(0, ZERO) || exists r :: r in regs && regs[r] == m
      decreases |left|
    {
      var r: Bytes :| r in left;
      if regs[r].epoch > m.epoch || (regs[r].epoch == m.epoch && Cmp(regs[r].id, m.id) > 0) { m := regs[r]; }
      left := left - {r};
    }
    MergedUnique(regs, m);
  }

  function AsRegs(lasts: map<Bytes, ID>): map<Bytes, Reg> { map r | r in lasts :: Reg(0, lasts[r]) }

  /** The highest ID any replica has recorded for the stream. */
  ghost function Last(lasts: map<Bytes, ID>): ID { Merged(AsRegs(lasts)).id }

  lemma LastMerged(lasts: map<Bytes, ID>, id: ID)
    requires forall r :: r in lasts ==> Le(lasts[r], id)
    requires id == ZERO || exists r :: r in lasts && lasts[r] == id
    ensures id == Last(lasts)
  {
    if id != ZERO {
      var r :| r in lasts && lasts[r] == id;
      assert AsRegs(lasts)[r] == Reg(0, id);
    }
    MergedUnique(AsRegs(lasts), Reg(0, id));
  }

  lemma LastBound(lasts: map<Bytes, ID>, r: Bytes)
    requires r in lasts
    ensures Le(lasts[r], Last(lasts))
  {
    assert AsRegs(lasts)[r] == Reg(0, lasts[r]);
  }

  lemma LastSet(lasts: map<Bytes, ID>, r: Bytes, id: ID)
    requires Lt(Last(lasts), id)
    ensures Last(lasts[r := id]) == id
  {
    forall q | q in lasts ensures Le(lasts[q], id) { LastBound(lasts, q); }
    assert lasts[r := id][r] == id;
    LastMerged(lasts[r := id], id);
  }

  method StreamLast(lasts: map<Bytes, ID>, me: Bytes) returns (max: ID, own: ID)
    ensures max == Last(lasts) && own == Own(lasts, me)
  {
    max, own := ZERO, ZERO;
    var left: set<Bytes> := lasts.Keys;
    while left != {}
      invariant forall r :: r in left ==> r in lasts
      invariant forall r :: r in lasts && r !in left ==> Le(lasts[r], max)
      invariant max == ZERO || exists r :: r in lasts && lasts[r] == max
      invariant own == if me in left then ZERO else Own(lasts, me)
      decreases |left|
    {
      var r: Bytes :| r in left;
      if Cmp(lasts[r], max) > 0 { max := lasts[r]; }
      if r == me { own := lasts[r]; }
      left := left - {r};
    }
    LastMerged(lasts, max);
  }

  function Own(lasts: map<Bytes, ID>, me: Bytes): ID { if me in lasts then lasts[me] else ZERO }

  // ---- slots ----

  function At<V>(m: map<ID, Cands<V>>, id: ID): Cands<V> { if id in m then m[id] else map[] }

  /** One slot to write: a value, or a tombstone. */
  datatype Change<V> = Change(id: ID, value: Option<V>)

  /** A tombstone carries no value; `nil` stands for the empty bytes. */
  function Stamped<V>(st: Stamp, value: Option<V>, nil: V): Slot<V> {
    match value
    case Some(v) => Slot(st, TAG_PRESENT, v)
    case None => Slot(st, TAG_DELETED, nil)
  }

  function Put<V>(m: map<ID, Cands<V>>, me: Bytes, id: ID, s: Slot<V>): map<ID, Cands<V>> {
    m[id := At(m, id)[me := s]]
  }

  /** This replica writes the slots one after the other, each with a fresh stamp. */
  function PutAll<V>(m: map<ID, Cands<V>>, me: Bytes, ws: seq<Change<V>>, nil: V, clock: Stamp, wall: Times, skip: nat)
    : map<ID, Cands<V>>
  {
    if ws == [] then m else
      var n := |ws| - 1;
      Put(PutAll(m, me, ws[..n], nil, clock, wall, skip), me, ws[n].id,
          Stamped(Reading(clock, wall, skip + n + 1), ws[n].value, nil))
  }

  /** What the writes do to one register: the last that names it decides this replica's slot. */
  lemma {:induction false} PutAllAt<V>(m: map<ID, Cands<V>>, me: Bytes, ws: seq<Change<V>>, nil: V, clock: Stamp,
                                       wall: Times, skip: nat, id: ID)
    ensures var after := PutAll(m, me, ws, nil, clock, wall, skip);
      var j := LastNaming(ws, id);
      At(after, id) ==
        if j.None? then At(m, id)
        else At(m, id)[me := Stamped(Reading(clock, wall, skip + j.value + 1), ws[j.value].value, nil)]
  {
    if ws != [] {
      var n := |ws| - 1;
      PutAllAt(m, me, ws[..n], nil, clock, wall, skip, id);
    }
  }

  function LastNaming<V>(ws: seq<Change<V>>, id: ID): (j: Option<nat>)
    ensures j.Some? ==> j.value < |ws| && ws[j.value].id == id
    ensures j.None? ==> forall i :: 0 <= i < |ws| ==> ws[i].id != id
  {
    if ws == [] then None
    else if ws[|ws| - 1].id == id then Some(|ws| - 1)
    else LastNaming(ws[..|ws| - 1], id)
  }

  // ---- the pending list ----

  datatype Pel = Pel(consumer: Bytes, delivered: int, count: int)

  const NO_PEL := Pel([], 0, 0)

  function Count(p: Option<Pel>): int { if p.Some? then p.value.count else 0 }

  /** RetryCount below zero means the option is absent. */
  datatype ClaimOpts = ClaimOpts(minIdle: int, idle: int, time: int, retry: int, force: bool, justId: bool)

  datatype Verdict = Dropped | Skipped | Taken(pel: Pel)

  /** What XCLAIM does with one ID, by its pending record and whether it is in the stream. */
  function ClaimOf(p: Option<Pel>, inStream: bool, consumer: Bytes, o: ClaimOpts, now: int): Verdict {
    if p.Some? && !inStream then Dropped
    else if p.None? && !(o.force && inStream) then Skipped
    else if p.Some? && now - p.value.delivered < o.minIdle then Skipped
    else
      var at := if o.time > 0 then o.time else if o.idle > 0 then now - o.idle else now;
      var n := if o.retry >= 0 then o.retry else if !o.justId then Count(p) + 1 else Count(p);
      Taken(Pel(consumer, at, if p.None? && n == 0 then 1 else n))
  }

  /** An entry is claimed only if it is in the stream and was idle long enough or is forced in, and is dropped only
      if it is gone from the stream; its delivery count grows by at most one and never falls, unless a retry count is
      given. */
  lemma ClaimMoves(p: Option<Pel>, inStream: bool, consumer: Bytes, o: ClaimOpts, now: int)
    ensures var v := ClaimOf(p, inStream, consumer, o, now);
      && (v.Dropped? <==> p.Some? && !inStream)
      && (v.Taken? <==> inStream && if p.Some? then now - p.value.delivered >= o.minIdle else o.force)
      && (v.Taken? ==> v.pel.consumer == consumer)
      && (v.Taken? && o.retry < 0 ==> Count(p) <= v.pel.count <= Count(p) + 1 && (p.None? ==> v.pel.count == 1))
  {}

  // ---- the state machine ----

  /** What one node holds of one stream and one of its groups, and its clock. */
  datatype State = State(clock: Stamp, entries: map<ID, Cands<Bytes>>, lasts: map<Bytes, ID>, meta: Cands<()>,
                         regs: map<Bytes, Reg>, pel: map<ID, Cands<Pel>>)

  ghost predicate InStream(s: State, id: ID) { Value(At(s.entries, id)).Some? }

  ghost function LiveIds(s: State): set<ID> { set id | id in s.entries && InStream(s, id) }

  ghost predicate HasGroup(s: State) { Value(s.meta).Some? }

  /** The pending record of an entry, if it is pending. */
  ghost function Pending(s: State, id: ID): Option<Pel> { Value(At(s.pel, id)) }

  ghost predicate PendingFor(s: State, id: ID, consumer: Bytes) {
    Pending(s, id).Some? && Pending(s, id).value.consumer == consumer
  }

  /** `wall` gives the physical times the clock reads during the step, `ticks` how many it reads. */
  datatype Action =
    | Add(now: nat, mode: Mode, disc: nat, fields: Bytes, wall: Times, ticks: nat)
    | Remove(gone: seq<ID>, wall: Times, ticks: nat)
    | Read(consumer: Bytes, count: int, noack: bool, at: int, wall: Times, ticks: nat)
    | Ack(ids: seq<ID>, wall: Times, ticks: nat)
    | Claim(claimer: Bytes, claims: seq<ID>, opts: ClaimOpts, time: int, wall: Times, ticks: nat)
    | DeleteConsumer(deleted: Bytes, order: seq<ID>, wall: Times, ticks: nat)
    | SetId(id: ID)
    | Create(start: ID, wall: Times, ticks: nat)
    | Destroy(order: seq<ID>, wall: Times, ticks: nat)
    | OtherCommands(wall: Times, ticks: nat)
    | Restart
    | RemoteRegister(from: Bytes, reg: Reg)
    | RemoteForget(who: set<Bytes>)
    | RemoteLast(from: Bytes, last: ID)
    | RemoteEntry(from: Bytes, entry: ID, field: Slot<Bytes>)
    | RemotePel(from: Bytes, pend: ID, record: Slot<Pel>)
    | RemoteMeta(from: Bytes, mark: Slot<()>)

  /** The entries a read hands out: the live ones after `mark`, in order, none left out before the cut. */
  ghost predicate Picked(live: set<ID>, mark: ID, count: int, out: seq<ID>) {
    Ascending(out) &&
    (forall i :: 0 <= i < |out| ==> out[i] in live && Lt(mark, out[i])) &&
    (forall id :: id in live && Lt(mark, id) && id !in out ==>
      count > 0 && |out| == count && Lt(out[|out| - 1], id)) &&
    (count > 0 ==> |out| <= count)
  }

  function Tombs<V>(ids: seq<ID>): seq<Change<V>> { seq(|ids|, i requires 0 <= i < |ids| => Change(ids[i], None)) }

  ghost function ReadWrites(s: State, consumer: Bytes, at: int, out: seq<ID>): seq<Change<Pel>> {
    seq(|out|, i requires 0 <= i < |out| => Change(out[i], Some(Pel(consumer, at, Count(Pending(s, out[i])) + 1))))
  }

  function AckWrite(id: ID, counts: bool): seq<Change<Pel>> { if counts then [Change(id, None)] else [] }

  /** Each pending ID is settled once, however often it is named. */
  ghost function AckWrites(s: State, ids: seq<ID>): seq<Change<Pel>> {
    if ids == [] then [] else
      var n := |ids| - 1;
      AckWrites(s, ids[..n]) + AckWrite(ids[n], Pending(s, ids[n]).Some? && ids[n] !in ids[..n])
  }

  ghost function VerdictOn(s: State, id: ID, claimer: Bytes, o: ClaimOpts, now: int): Verdict {
    ClaimOf(Pending(s, id), InStream(s, id), claimer, o, now)
  }

  function ClaimWrite(id: ID, v: Verdict): seq<Change<Pel>> {
    match v
    case Dropped => [Change(id, None)]
    case Skipped => []
    case Taken(p) => [Change(id, Some(p))]
  }

  /** Every verdict is given on the list as loaded, so a repeated ID gets the same one. */
  ghost function ClaimWrites(s: State, ids: seq<ID>, claimer: Bytes, o: ClaimOpts, now: int): seq<Change<Pel>> {
    if ids == [] then [] else
      var n := |ids| - 1;
      ClaimWrites(s, ids[..n], claimer, o, now) + ClaimWrite(ids[n], VerdictOn(s, ids[n], claimer, o, now))
  }

  /** The pending slots a step of this node writes. */
  ghost function PelWrites(s: State, a: Action, out: seq<ID>): seq<Change<Pel>> {
    if !HasGroup(s) then [] else
      match a
      case Read(consumer, _, noack, at, _, _) => if noack then [] else ReadWrites(s, consumer, at, out)
      case Ack(ids, _, _) => AckWrites(s, ids)
      case Claim(claimer, claims, opts, time, _, _) => ClaimWrites(s, claims, claimer, opts, time)
      case DeleteConsumer(_, order, _, _) => Tombs(order)
      case Destroy(order, _, _) => Tombs(order)
      case _ => []
  }

  /** A read touches its consumer's slot before it writes pending records. */
  function Skip(a: Action): nat { if a.Read? then 1 else 0 }

  ghost predicate Distinct(ids: seq<ID>) { forall i, j :: 0 <= i < j < |ids| ==> ids[i] != ids[j] }

  predicate IsLocal(a: Action) {
    || a.Add? || a.Remove? || a.Read? || a.Ack? || a.Claim? || a.DeleteConsumer?
    || a.Create? || a.Destroy? || a.OtherCommands?
  }

  /** The state with the clock read and the pending slots written. */
  ghost function Wrote(me: Bytes, s: State, a: Action, out: seq<ID>): State
    requires IsLocal(a)
  {
    s.(clock := Reading(s.clock, a.wall, a.ticks),
       pel := PutAll(s.pel, me, PelWrites(s, a, out), NO_PEL, s.clock, a.wall, Skip(a)))
  }

  /** Local commands that write: which entries, registers and marks they write besides. */
  ghost predicate LocalStep(me: Bytes, s: State, a: Action, s': State, out: seq<ID>)
    requires IsLocal(a)
  {
    var s1 := Wrote(me, s, a, out);
    a.ticks >= Skip(a) + |PelWrites(s, a, out)| &&
    match a
    case Add(now, mode, disc, fields, wall, ticks) =>
      (match NextId(now, Last(s.lasts), mode, disc)
       case Err(_) => s' == s1
       case Ok(id) =>
         && ticks > 0
         && s' == s1.(entries := Put(s.entries, me, id, Slot(Reading(s.clock, wall, 1), TAG_PRESENT, fields)),
                      lasts := if Cmp(id, Own(s.lasts, me)) > 0 then s.lasts[me := id] else s.lasts))
    case Remove(gone, wall, ticks) =>
      && ticks >= |gone| && (forall i :: 0 <= i < |gone| ==> InStream(s, gone[i]))
      && s' == s1.(entries := PutAll(s.entries, me, Tombs(gone), [], s.clock, wall, 0))
    case Read(consumer, count, noack, at, _, _) =>
      if !HasGroup(s) then s' == s1
      else
        && Picked(LiveIds(s), Merged(s.regs).id, count, out)
        && s' == s1.(regs := if out == [] then s.regs else s.regs[me := Reg(Merged(s.regs).epoch, out[|out| - 1])])
    case DeleteConsumer(deleted, order, _, _) =>
      && (HasGroup(s) ==> Ascending(order) && forall id :: id in order <==> PendingFor(s, id, deleted))
      && s' == s1
    case Create(start, wall, ticks) =>
      if HasGroup(s) then s' == s1
      else
        && ticks > 0
        && s' == s1.(meta := s.meta[me := Slot(Reading(s.clock, wall, ticks), TAG_PRESENT, ())],
                     regs := s.regs[me := Reg(0, start)])
    case Destroy(order, wall, ticks) =>
      if !HasGroup(s) then s' == s1
      else
        && Distinct(order) && (forall id :: id in order <==> Pending(s, id).Some?) && ticks > |order|
        && s' == s1.(meta := s.meta[me := Slot(Reading(s.clock, wall, ticks), TAG_DELETED, ())], regs := map[])
    case _ => s' == s1
  }

  /** One step of node `me`, or one arrival from elsewhere; out is what a read returns. */
  ghost predicate Step(me: Bytes, s: State, a: Action, s': State, out: seq<ID>) {
    (!a.Read? || !HasGroup(s) ==> out == []) &&
    if IsLocal(a) then LocalStep(me, s, a, s', out)
    else
      match a
      case SetId(id) =>
        s' == if HasGroup(s) then s.(regs := s.regs[me := Reg((Merged(s.regs).epoch + 1) % U64, id)]) else s
      case Restart => s' == s.(clock := Stamp(0, 0))
      case RemoteRegister(from, reg) => from != me && s' == s.(regs := s.regs[from := reg])
      case RemoteForget(who) => s' == s.(regs := s.regs - who)
      case RemoteLast(from, last) => from != me && s' == s.(lasts := s.lasts[from := last])
      case RemoteEntry(from, entry, field) => from != me && s' == s.(entries := Put(s.entries, from, entry, field))
      case RemotePel(from, pend, record) => from != me && s' == s.(pel := Put(s.pel, from, pend, record))
      case RemoteMeta(from, mark) => from != me && s' == s.(meta := s.meta[from := mark])
  }

  datatype Trace = Trace(states: seq<State>, acts: seq<Action>, outs: seq<seq<ID>>)

  ghost predicate IsTrace(me: Bytes, t: Trace) {
    |t.states| == |t.acts| + 1 && |t.outs| == |t.acts| &&
    forall i :: 0 <= i < |t.acts| ==> Step(me, t.states[i], t.acts[i], t.states[i + 1], t.outs[i])
  }

  // ---- delivery within one epoch on one node ----

  /** The steps of one node within one epoch of one group's life, and other replicas' pending records. */
  predicate WithinEpoch(a: Action) {
    || a.Add? || a.Remove? || a.Read? || a.Ack? || a.Claim? || a.DeleteConsumer?
    || a.OtherCommands? || a.Restart? || a.RemotePel?
  }

  ghost predicate Mintable(s: State, a: Action) {
    a.Add? ==> a.disc < DISC && IsID(Last(s.lasts)) && !Exhausted(a.now, Last(s.lasts), a.mode)
  }

  ghost predicate EpochTrace(me: Bytes, t: Trace) {
    IsTrace(me, t) && forall i :: 0 <= i < |t.acts| ==> WithinEpoch(t.acts[i]) && Mintable(t.states[i], t.acts[i])
  }

  /** Everything the first k steps delivered, in order. */
  function Delivered(t: Trace, k: nat): seq<ID>
    requires k <= |t.outs|
  {
    if k == 0 then [] else Delivered(t, k - 1) + t.outs[k - 1]
  }

  ghost predicate Bounded(s: State) { forall id :: id in LiveIds(s) ==> Le(id, Last(s.lasts)) }

  /** What the epoch has handed out so far, seen from its start register. */
  ghost predicate Progress(s: State, start: Reg, done: seq<ID>) {
    Bounded(s) && Ascending(done) &&
    Merged(s.regs) == (if done == [] then start else Reg(start.epoch, done[|done| - 1])) &&
    (done != [] ==> Le(done[|done| - 1], Last(s.lasts))) &&
    (forall i :: 0 <= i < |done| ==> Lt(start.id, done[i])) &&
    (forall id :: id in LiveIds(s) && Lt(start.id, id) && Le(id, Merged(s.regs).id) ==> id in done)
  }

  /** Writing one entry makes no other entry live. */
  lemma LivePut(s: State, s': State, r: Bytes, id: ID, slot: Slot<Bytes>)
    requires s'.entries == Put(s.entries, r, id, slot)
    ensures LiveIds(s') <= LiveIds(s) + {id}
  {
    forall q | q in LiveIds(s') ensures q in LiveIds(s) + {id} {
      if q != id { assert At(s'.entries, q) == At(s.entries, q); }
    }
  }

  /** Tombstones make nothing live that was not. */
  lemma LiveRemoved(me: Bytes, s: State, s': State, gone: seq<ID>, clock: Stamp, wall: Times)
    requires s'.entries == PutAll(s.entries, me, Tombs(gone), [], clock, wall, 0)
    requires forall i :: 0 <= i < |gone| ==> InStream(s, gone[i])
    ensures LiveIds(s') <= LiveIds(s)
  {
    forall q | q in LiveIds(s') ensures q in LiveIds(s) {
      PutAllAt(s.entries, me, Tombs(gone), [], clock, wall, 0, q);
      var j := LastNaming(Tombs<Bytes>(gone), q);
      if j.Some? { assert gone[j.value] == q; }
      assert InStream(s, q) && q in s.entries;
    }
  }

  lemma AddProgress(me: Bytes, s: State, s': State, id: ID, slot: Slot<Bytes>, start: Reg, done: seq<ID>)
    requires Progress(s, start, done) && Lt(Last(s.lasts), id)
    requires s'.regs == s.regs && s'.lasts == s.lasts[me := id] && s'.entries == Put(s.entries, me, id, slot)
    ensures Progress(s', start, done)
  {
    LastSet(s.lasts, me, id);
    LivePut(s, s', me, id, slot);
  }

  /** What an addition does to the entries and the registers. */
  lemma AddDoes(me: Bytes, s: State, a: Action, s': State)
    requires a.Add? && Step(me, s, a, s', []) && Mintable(s, a)
    ensures s'.regs == s.regs
    ensures var r := NextId(a.now, Last(s.lasts), a.mode, a.disc);
      if r.Err? then s'.lasts == s.lasts && s'.entries == s.entries
      else
        && Lt(Last(s.lasts), r.value) && s'.lasts == s.lasts[me := r.value]
        && s'.entries == Put(s.entries, me, r.value, Slot(Reading(s.clock, a.wall, 1), TAG_PRESENT, a.fields))
  {
    var r := NextId(a.now, Last(s.lasts), a.mode, a.disc);
    if r.Ok? {
      MintedAboveIff(a.now, Last(s.lasts), a.mode, a.disc);
      OwnBound(s.lasts, me);
    }
  }

  lemma ReadDoes(me: Bytes, s: State, a: Action, s': State, out: seq<ID>)
    requires a.Read? && Step(me, s, a, s', out)
    ensures s'.lasts == s.lasts && s'.entries == s.entries
    ensures HasGroup(s) ==> Picked(LiveIds(s), Merged(s.regs).id, a.count, out)
    ensures s'.regs == if out == [] then s.regs else s.regs[me := Reg(Merged(s.regs).epoch, out[|out| - 1])]
    ensures out != [] ==> HasGroup(s)
  {}

  /** The other steps within an epoch leave the registers alone and add no entry. */
  lemma OtherDoes(me: Bytes, s: State, a: Action, s': State)
    requires WithinEpoch(a) && !a.Add? && !a.Read? && Step(me, s, a, s', [])
    ensures s'.lasts == s.lasts && s'.regs == s.regs && LiveIds(s') <= LiveIds(s)
  {
    if a.Remove? { LiveRemoved(me, s, s', a.gone, s.clock, a.wall); }
  }

  lemma OwnBound(lasts: map<Bytes, ID>, me: Bytes)
    ensures Le(Own(lasts, me), Last(lasts))
  {
    if me in lasts { LastBound(lasts, me); }
  }

  lemma SameEntries(s: State, s': State)
    requires s'.entries == s.entries
    ensures LiveIds(s') == LiveIds(s)
  {}

  lemma ReadProgress(me: Bytes, s: State, count: int, s': State, out: seq<ID>, start: Reg, done: seq<ID>)
    requires Progress(s, start, done) && Picked(LiveIds(s), Merged(s.regs).id, count, out) && out != []
    requires s'.lasts == s.lasts && s'.entries == s.entries
    requires s'.regs == s.regs[me := Reg(Merged(s.regs).epoch, out[|out| - 1])]
    ensures Progress(s', start, done + out)
  {
    var g := Merged(s.regs);
    SameEntries(s, s');
    MergedSet(s.regs, me, Reg(g.epoch, out[|out| - 1]));
    AscendingConcat(done, out, g.id);
    forall id | id in LiveIds(s) && Lt(start.id, id) && Le(id, out[|out| - 1]) ensures id in done + out {
      if Lt(g.id, id) { assert id in out; }
    }
  }

  lemma AscendingConcat(a: seq<ID>, b: seq<ID>, mark: ID)
    requires Ascending(a) && Ascending(b)
    requires a != [] ==> a[|a| - 1] == mark
    requires forall i :: 0 <= i < |b| ==> Lt(mark, b[i])
    ensures Ascending(a + b)
  {}

  lemma OtherProgress(s: State, s': State, start: Reg, done: seq<ID>)
    requires Progress(s, start, done)
    requires s'.lasts == s.lasts && s'.regs == s.regs && LiveIds(s') <= LiveIds(s)
    ensures Progress(s', start, done)
  {}

  /** Every live entry after the start has been handed out. */
  ghost predicate NoneLeft(s: State, start: Reg, done: seq<ID>) {
    forall id :: id in LiveIds(s) && Lt(start.id, id) ==> id in done
  }

  /** The step is a read without a count by a group that is there. */
  ghost predicate ReadsAll(s: State, a: Action) { a.Read? && HasGroup(s) && a.count <= 0 }

  lemma ReadAllLeavesNone(me: Bytes, s: State, a: Action, s': State, out: seq<ID>, start: Reg, done: seq<ID>)
    requires Step(me, s, a, s', out) && ReadsAll(s, a) && Progress(s, start, done)
    ensures NoneLeft(s', start, done + out)
  {
    ReadDoes(me, s, a, s', out);
    SameEntries(s, s');
    forall id | id in LiveIds(s') && Lt(start.id, id) ensures id in done + out {
      if Lt(Merged(s.regs).id, id) { assert id in out; } else { assert id in done; }
    }
  }

  lemma StepProgress(me: Bytes, s: State, a: Action, s': State, out: seq<ID>, start: Reg, done: seq<ID>)
    requires Progress(s, start, done) && Step(me, s, a, s', out) && WithinEpoch(a) && Mintable(s, a)
    ensures Progress(s', start, done + out)
    ensures ReadsAll(s, a) ==> NoneLeft(s', start, done + out)
  {
    if ReadsAll(s, a) { ReadAllLeavesNone(me, s, a, s', out, start, done); }
    if out == [] { assert done + out == done; }
    if a.Read? {
      ReadDoes(me, s, a, s', out);
      if out == [] { OtherProgress(s, s', start, done); } else { ReadProgress(me, s, a.count, s', out, start, done); }
    } else if a.Add? {
      AddDoes(me, s, a, s');
      var r := NextId(a.now, Last(s.lasts), a.mode, a.disc);
      if r.Ok? {
        AddProgress(me, s, s', r.value, Slot(Reading(s.clock, a.wall, 1), TAG_PRESENT, a.fields), start, done);
      } else {
        OtherProgress(s, s', start, done);
      }
    } else {
      OtherDoes(me, s, a, s');
      OtherProgress(s, s', start, done);
    }
  }

  lemma {:induction false} EpochProgress(me: Bytes, t: Trace, k: nat)
    requires EpochTrace(me, t) && k <= |t.acts| && Bounded(t.states[0])
    ensures Progress(t.states[k], Merged(t.states[0].regs), Delivered(t, k))
    ensures k > 0 && ReadsAll(t.states[k - 1], t.acts[k - 1]) ==>
      NoneLeft(t.states[k], Merged(t.states[0].regs), Delivered(t, k))
  {
    if k > 0 {
      EpochProgress(me, t, k - 1);
      StepProgress(me, t.states[k - 1], t.acts[k - 1], t.states[k], t.outs[k - 1],
                   Merged(t.states[0].regs), Delivered(t, k - 1));
    }
  }

  /** id lies after the epoch's start and no further than the mark after k steps. */
  ghost predicate Between(t: Trace, k: nat, id: ID)
    requires k < |t.states|
  {
    Lt(Merged(t.states[0].regs).id, id) && Le(id, Merged(t.states[k].regs).id)
  }

  /** Within one epoch, deliveries strictly increase, so no entry is handed out twice; and after every
      read, each live entry from the epoch's start up to the last one handed out has been handed out. */
  lemma ExactlyOnceDelivery(me: Bytes, t: Trace, k: nat)
    requires EpochTrace(me, t) && k <= |t.acts| && Bounded(t.states[0])
    ensures Ascending(Delivered(t, k))
    ensures forall id :: id in LiveIds(t.states[k]) && Between(t, k, id) ==> id in Delivered(t, k)
    ensures k > 0 && ReadsAll(t.states[k - 1], t.acts[k - 1]) ==>
      NoneLeft(t.states[k], Merged(t.states[0].regs), Delivered(t, k))
  {
    EpochProgress(me, t, k);
  }

  /** An entry added within an epoch that started no later than the stream's last ID is never behind the
      delivery mark; it is live exactly when its stamp beats every other replica's slot for that ID, or those
      slots show an entry themselves. */
  lemma AddedStaysDeliverable(me: Bytes, t: Trace, k: nat)
    requires EpochTrace(me, t) && k < |t.acts| && Bounded(t.states[0])
    requires Le(Merged(t.states[0].regs).id, Last(t.states[0].lasts))
    requires t.acts[k].Add?
    ensures var a, s, s' := t.acts[k], t.states[k], t.states[k + 1];
      var r := NextId(a.now, Last(s.lasts), a.mode, a.disc);
      r.Ok? ==>
        && Lt(Merged(s'.regs).id, r.value)
        && (InStream(s', r.value) <==>
              || Beats(At(s.entries, r.value), me, Reading(s.clock, a.wall, 1))
              || Value(At(s.entries, r.value) - {me}).Some?)
  {
    var a, s, s' := t.acts[k], t.states[k], t.states[k + 1];
    AddDoes(me, s, a, s');
    AddedLiveIff(me, s, a, s');
    MarkBehindLast(me, t, k);
  }

  lemma AddedLiveIff(me: Bytes, s: State, a: Action, s': State)
    requires a.Add? && Step(me, s, a, s', []) && Mintable(s, a)
    ensures var r := NextId(a.now, Last(s.lasts), a.mode, a.disc);
      r.Ok? ==>
        (InStream(s', r.value) <==>
           || Beats(At(s.entries, r.value), me, Reading(s.clock, a.wall, 1))
           || Value(At(s.entries, r.value) - {me}).Some?)
  {
    AddDoes(me, s, a, s');
    var r := NextId(a.now, Last(s.lasts), a.mode, a.disc);
    if r.Ok? {
      WriteShowsIff(At(s.entries, r.value), me, Slot(Reading(s.clock, a.wall, 1), TAG_PRESENT, a.fields));
    }
  }

  lemma MarkBehindLast(me: Bytes, t: Trace, k: nat)
    requires EpochTrace(me, t) && k <= |t.acts| && Bounded(t.states[0])
    requires Le(Merged(t.states[0].regs).id, Last(t.states[0].lasts))
    ensures Le(Merged(t.states[k].regs).id, Last(t.states[k].lasts))
  {
    EpochProgress(me, t, k);
    LastGrows(me, t, k);
  }

  lemma LastStep(me: Bytes, s: State, a: Action, s': State, out: seq<ID>)
    requires Step(me, s, a, s', out) && WithinEpoch(a) && Mintable(s, a)
    ensures Le(Last(s.lasts), Last(s'.lasts))
  {
    if a.Add? {
      AddDoes(me, s, a, s');
      var r := NextId(a.now, Last(s.lasts), a.mode, a.disc);
      if r.Ok? { LastSet(s.lasts, me, r.value); }
    } else if a.Read? {
      ReadDoes(me, s, a, s', out);
    } else {
      OtherDoes(me, s, a, s');
    }
  }

  lemma {:induction false} LastGrows(me: Bytes, t: Trace, k: nat)
    requires EpochTrace(me, t) && k <= |t.acts|
    ensures Le(Last(t.states[0].lasts), Last(t.states[k].lasts))
  {
    if k > 0 {
      LastGrows(me, t, k - 1);
      LastStep(me, t.states[k - 1], t.acts[k - 1], t.states[k], t.outs[k - 1]);
    }
  }

  /** An ID can be minted or given like this after `last`. */
  predicate CanFollow(last: ID, now: nat, mode: Mode, disc: nat) {
    disc < DISC && !Exhausted(now, last, mode) && NextId(now, last, mode, disc).Ok?
  }

  /** Whatever is added next stays deliverable exactly when the epoch starts no later than the last ID. */
  lemma StartDeliverableIff(start: ID, last: ID)
    requires IsID(start) && IsID(last)
    ensures Le(start, last) <==>
      forall now: nat, mode, disc: nat :: CanFollow(last, now, mode, disc) ==>
        Lt(start, NextId(now, last, mode, disc).value)
  {
    if Le(start, last) {
      forall now: nat, mode, disc: nat | CanFollow(last, now, mode, disc)
        ensures Lt(start, NextId(now, last, mode, disc).value)
      {
        MintedAboveIff(now, last, mode, disc);
      }
    } else {
      assert CanFollow(last, 0, Explicit(start), 0) && NextId(0, last, Explicit(start), 0) == Ok(start);
    }
  }

  /** An epoch that starts past the stream's last ID does skip: whatever is added at or before its start is never
      handed out, however the epoch goes on. */
  lemma BehindStartNeverDelivered(me: Bytes, t: Trace, k: nat, id: ID)
    requires EpochTrace(me, t) && k <= |t.acts| && Bounded(t.states[0])
    requires Le(id, Merged(t.states[0].regs).id)
    ensures id !in Delivered(t, k)
  {
    EpochProgress(me, t, k);
  }

  // ---- the group's mark ----

  /** A group created is there, and a group destroyed is gone, exactly when the mark's stamp beats every other
      replica's; otherwise the other replicas' marks go on deciding. */
  lemma GroupMarkIff(me: Bytes, s: State, a: Action, s': State)
    requires Step(me, s, a, s', [])
    requires (a.Create? && !HasGroup(s)) || (a.Destroy? && HasGroup(s))
    ensures HasGroup(s') <==>
      if Beats(s.meta, me, Reading(s.clock, a.wall, a.ticks)) then a.Create? else Value(s.meta - {me}).Some?
  {
    var tag := if a.Create? then TAG_PRESENT else TAG_DELETED;
    WriteShowsIff(s.meta, me, Slot(Reading(s.clock, a.wall, a.ticks), tag, ()));
  }

  // ---- the own register, whatever arrives from elsewhere ----

  /** The step does not end the group's life, nor wrap its epoch. */
  ghost predicate SameLife(me: Bytes, s: State, a: Action) {
    !a.Create? && !a.Destroy? && (a.RemoteForget? ==> me !in a.who) && (a.SetId? ==> Merged(s.regs).epoch < U64 - 1)
  }

  /** Over any step but creating or destroying the group, a node's own register never goes back; a read
      that hands something out moves it forward. */
  lemma OwnRegisterGrows(me: Bytes, s: State, a: Action, s': State, out: seq<ID>)
    requires Step(me, s, a, s', out) && SameLife(me, s, a) && me in s.regs
    ensures me in s'.regs && !Above(s.regs[me], s'.regs[me])
    ensures out != [] || (a.SetId? && HasGroup(s)) ==> Above(s'.regs[me], s.regs[me])
  {
    if a.Read? { ReadDoes(me, s, a, s', out); } else if IsLocal(a) { assert s'.regs == s.regs; }
  }

  /** The epoch counter wraps at 64 bits, and then the register goes back. */
  lemma EpochWrapGoesBack(me: Bytes, s: State, id: ID)
    requires HasGroup(s) && s.regs == map[me := Reg(U64 - 1, id)]
    ensures Step(me, s, SetId(id), s.(regs := map[me := Reg(0, id)]), [])
    ensures Above(Reg(U64 - 1, id), Reg(0, id))
  {
    assert s.regs[me] == Reg(U64 - 1, id);
    MergedUnique(s.regs, Reg(U64 - 1, id));
    assert s.regs[me := Reg(0, id)] == map[me := Reg(0, id)];
  }

  lemma {:induction false} OwnRegisterNeverGoesBack(me: Bytes, t: Trace, j: nat, k: nat)
    requires IsTrace(me, t) && j <= k <= |t.acts| && me in t.states[j].regs
    requires forall i :: j <= i < k ==> SameLife(me, t.states[i], t.acts[i])
    ensures me in t.states[k].regs && !Above(t.states[j].regs[me], t.states[k].regs[me])
  {
    if j < k {
      OwnRegisterNeverGoesBack(me, t, j, k - 1);
      OwnRegisterGrows(me, t.states[k - 1], t.acts[k - 1], t.states[k], t.outs[k - 1]);
    }
  }
}
