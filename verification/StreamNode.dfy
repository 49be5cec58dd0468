/** A node's stream commands, updating its stored slots in place. */
module StreamNode {
  import opened Prelude
  import opened ByteStrings
  import opened Hlc
  import opened Slots
  import opened Streams

  /** The IDs in order, inserted one at a time. */
  method SortIds(ids: set<ID>) returns (out: seq<ID>)
    ensures Ascending(out) && forall id :: id in out <==> id in ids
  {
    out := [];
    var left := ids;
    while left != {}
      invariant Ascending(out) && left <= ids
      invariant forall id :: id in out <==> id in ids && id !in left
      decreases |left|
    {
      var id: ID :| id in left;
      var i := 0;
      while i < |out| && Cmp(out[i], id) < 0
        invariant 0 <= i <= |out| && forall j :: 0 <= j < i ==> Lt(out[j], id)
      {
        i := i + 1;
      }
      out := out[..i] + [id] + out[i..];
      left := left - {id};
    }
  }

  /** streamLive: the entries whose newest slot is present, in ID order. */
  method StreamLive(byId: map<ID, Cands<Bytes>>) returns (out: seq<ID>)
    ensures Ascending(out)
    ensures forall id :: id in out <==> id in byId && Value(byId[id]).Some?
  {
    var kept: set<ID> := {};
    var left: set<ID> := byId.Keys;
    while left != {}
      invariant forall id :: id in left ==> id in byId
      invariant forall id :: id in kept <==> id in byId && id !in left && Value(byId[id]).Some?
      decreases |left|
    {
      var id: ID :| id in left;
      var v := LiveValue(byId[id]);
      if v.Some? { kept := kept + {id}; }
      left := left - {id};
    }
    out := SortIds(kept);
  }

  /** The entries pending for a consumer, in ID order. */
  method PendingOf(pel: map<ID, Cands<Pel>>, consumer: Bytes) returns (out: seq<ID>)
    ensures Ascending(out)
    ensures forall id :: id in out <==> Value(At(pel, id)).Some? && Value(At(pel, id)).value.consumer == consumer
  {
    var kept: set<ID> := {};
    var left: set<ID> := pel.Keys;
    while left != {}
      invariant forall id :: id in left ==> id in pel
      invariant forall id :: id in kept <==>
        id in pel && id !in left && Value(pel[id]).Some? && Value(pel[id]).value.consumer == consumer
      decreases |left|
    {
      var id: ID :| id in left;
      var v := LiveValue(pel[id]);
      if v.Some? && v.value.consumer == consumer { kept := kept + {id}; }
      left := left - {id};
    }
    out := SortIds(kept);
  }

  /** From state s the changes have been written, one reading of the clock each, after `skip` others. */
  ghost predicate AllOut(me: Bytes, s: State, ws: seq<Change<Pel>>, clock: Stamp, pel: map<ID, Cands<Pel>>, wall: Times,
                        skip: nat) {
    clock == Reading(s.clock, wall, skip + |ws|) && pel == PutAll(s.pel, me, ws, NO_PEL, s.clock, wall, skip)
  }

  lemma OneMoreOut(me: Bytes, s: State, ws: seq<Change<Pel>>, c: Change<Pel>, clock: Stamp, pel: map<ID, Cands<Pel>>,
                  wall: Times, skip: nat)
    requires AllOut(me, s, ws, clock, pel, wall, skip)
    ensures var clock' := Tick(clock, wall(skip + |ws|));
      AllOut(me, s, ws + [c], clock', Put(pel, me, c.id, Stamped(clock', c.value, NO_PEL)), wall, skip)
  {
    assert (ws + [c])[..|ws|] == ws;
  }

  lemma NothingOut(me: Bytes, s: State, wall: Times, skip: nat)
    ensures AllOut(me, s, [], Reading(s.clock, wall, skip), s.pel, wall, skip)
  {}

  lemma MarkNext(s: State, consumer: Bytes, now: int, out: seq<ID>, i: nat)
    requires i < |out|
    ensures var ws := ReadWrites(s, consumer, now, out);
      var record := Pel(consumer, now, Count(Pending(s, out[i])) + 1);
      |ws| == |out| && ws[..i + 1] == ws[..i] + [Change(out[i], Some(record))]
  {}

  lemma AckNext(s: State, ids: seq<ID>, i: nat)
    requires i < |ids|
    ensures var ws, ws' := AckWrites(s, ids[..i]), AckWrites(s, ids[..i + 1]);
      ws' == if Pending(s, ids[i]).Some? && ids[i] !in ids[..i] then ws + [Change(ids[i], None)] else ws
  {
    assert ids[..i + 1][..i] == ids[..i];
  }

  /** The loaded pending slots without those already acknowledged. */
  ghost predicate LeftOf(s: State, ids: seq<ID>, loaded: map<ID, Cands<Pel>>) {
    forall x :: At(loaded, x) == if x in ids && Pending(s, x).Some? then map[] else At(s.pel, x)
  }

  lemma LeftNext(s: State, ids: seq<ID>, i: nat, loaded: map<ID, Cands<Pel>>)
    requires i < |ids| && LeftOf(s, ids[..i], loaded)
    ensures Value(At(loaded, ids[i])).Some? <==> Pending(s, ids[i]).Some? && ids[i] !in ids[..i]
    ensures LeftOf(s, ids[..i + 1], if Value(At(loaded, ids[i])).Some? then loaded - {ids[i]} else loaded)
  {
    assert ids[..i + 1] == ids[..i] + [ids[i]];
    var after := if Value(At(loaded, ids[i])).Some? then loaded - {ids[i]} else loaded;
    forall x ensures At(after, x) == if x in ids[..i + 1] && Pending(s, x).Some? then map[] else At(s.pel, x) {
      assert At(loaded, x) == if x in ids[..i] && Pending(s, x).Some? then map[] else At(s.pel, x);
    }
  }

  lemma ClaimNext(s: State, ids: seq<ID>, i: nat, claimer: Bytes, o: ClaimOpts, now: int)
    requires i < |ids|
    ensures
      var ws, ws' := ClaimWrites(s, ids[..i], claimer, o, now), ClaimWrites(s, ids[..i + 1], claimer, o, now);
      ws' == match VerdictOn(s, ids[i], claimer, o, now)
             case Dropped => ws + [Change(ids[i], None)]
             case Skipped => ws
             case Taken(p) => ws + [Change(ids[i], Some(p))]
  {
    assert ids[..i + 1][..i] == ids[..i];
  }

  lemma JudgedNext(s: State, ids: seq<ID>, i: nat, claimer: Bytes, o: ClaimOpts, now: int, taken: bool)
    requires i < |ids|
    ensures var v := VerdictOn(s, ids[i], claimer, o, now);
      Judged(s, ids[..i + 1], claimer, o, now, taken) ==
        Judged(s, ids[..i], claimer, o, now, taken) + if (if taken then v.Taken? else v.Dropped?) then [ids[i]] else []
  {
    assert ids[..i + 1][..i] == ids[..i];
  }

  /** The IDs XCLAIM took, or those it dropped. */
  ghost function Judged(s: State, ids: seq<ID>, claimer: Bytes, o: ClaimOpts, now: int, taken: bool): seq<ID> {
    if ids == [] then [] else
      var n := |ids| - 1;
      var v := VerdictOn(s, ids[n], claimer, o, now);
      Judged(s, ids[..n], claimer, o, now, taken) + if (if taken then v.Taken? else v.Dropped?) then [ids[n]] else []
  }

  /** One ID's verdict, decided as the command's two switches do. */
  method Judge(loaded: Option<Pel>, inStream: bool, consumer: Bytes, o: ClaimOpts, now: int) returns (v: Verdict)
    ensures v == ClaimOf(loaded, inStream, consumer, o, now)
  {
    var inPel := loaded.Some?;
    var p := if inPel then loaded.value else NO_PEL;
    if inPel && !inStream { return Dropped; }
    if !inPel && !(o.force && inStream) { return Skipped; }
    if inPel && now - p.delivered < o.minIdle { return Skipped; }
    p := p.(consumer := consumer);
    if o.time > 0 {
      p := p.(delivered := o.time);
    } else if o.idle > 0 {
      p := p.(delivered := now - o.idle);
    } else {
      p := p.(delivered := now);
    }
    if o.retry >= 0 { p := p.(count := o.retry); } else if !o.justId { p := p.(count := p.count + 1); }
    if !inPel && p.count == 0 { p := p.(count := 1); }
    return Taken(p);
  }

  lemma DeleteIsStep(me: Bytes, s: State, a: Action, s': State)
    requires a.DeleteConsumer? && HasGroup(s) && Ascending(a.order) && a.ticks >= |a.order|
    requires forall id :: id in a.order <==> PendingFor(s, id, a.deleted)
    requires s' == s.(clock := Reading(s.clock, a.wall, a.ticks),
                      pel := PutAll(s.pel, me, Tombs(a.order), NO_PEL, s.clock, a.wall, 0))
    ensures Step(me, s, a, s', [])
  {}

  lemma ReadIsStep(me: Bytes, s: State, a: Action, s': State, out: seq<ID>)
    requires a.Read? && HasGroup(s) && Picked(LiveIds(s), Merged(s.regs).id, a.count, out)
    requires a.ticks == 1 + if a.noack then 0 else |out|
    requires s'.pel == if a.noack then s.pel
                       else PutAll(s.pel, me, ReadWrites(s, a.consumer, a.at, out), NO_PEL, s.clock, a.wall, 1)
    requires
      var regs := if out == [] then s.regs else s.regs[me := Reg(Merged(s.regs).epoch, out[|out| - 1])];
      s' == s.(clock := Reading(s.clock, a.wall, a.ticks), pel := s'.pel, regs := regs)
    ensures Step(me, s, a, s', out)
  {}

  class Node {
    const me: Bytes
    var clock: Stamp
    var entries: map<ID, Cands<Bytes>>
    var lasts: map<Bytes, ID>
    var meta: Cands<()>
    var regs: map<Bytes, Reg>
    var pel: map<ID, Cands<Pel>>

    ghost function View(): State
      reads this
    {
      State(clock, entries, lasts, meta, regs, pel)
    }

    method AddEntry(now: nat, mode: Mode, disc: nat, fields: Bytes, wall: Times)
      returns (r: Result<ID, Error>, ghost ticks: nat)
      modifies this
      ensures Step(me, old(View()), Add(now, mode, disc, fields, wall, ticks), View(), [])
      ensures r == NextId(now, Last(old(lasts)), mode, disc)
    {
      var last, own := StreamLast(lasts, me);
      r, ticks := NextId(now, last, mode, disc), 0;
      if r.Err? { return; }
      clock, ticks := Tick(clock, wall(0)), 1;
      entries := Put(entries, me, r.value, Slot(clock, TAG_PRESENT, fields));
      if Cmp(r.value, own) > 0 { lasts := lasts[me := r.value]; }
    }

    /** XGROUP CREATE; `stream` says whether the stream is there. One made on the way starts at 0-0. */
    method GroupCreate(id: ID, stream: bool, mkstream: bool, wall: Times)
      returns (r: Result<(), Error>, ghost ticks: nat)
      modifies this
      ensures !stream && !mkstream ==> r == Err(NoGroup) && View() == old(View())
      ensures stream || mkstream ==>
        var s := old(View()).(lasts := if stream then old(lasts) else old(lasts)[me := ZERO]);
        Step(me, s, Create(id, wall, ticks), View(), []) && r == if HasGroup(s) then Err(GroupExists) else Ok(())
    {
      ghost var s := View();
      var n := 0;
      ticks := 0;
      if !stream {
        if !mkstream { return Err(NoGroup), 0; }
        lasts := lasts[me := ZERO];
        clock, n, ticks := Tick(clock, wall(0)), 1, 1;
      }
      var g := LiveValue(meta);
      assert clock == Reading(s.clock, wall, ticks);
      if g.Some? { return Err(GroupExists), ticks; }
      clock, ticks := Tick(clock, wall(n)), ticks + 1;
      assert clock == Reading(s.clock, wall, ticks);
      meta := meta[me := Slot(clock, TAG_PRESENT, ())];
      regs := regs[me := Reg(0, id)];
      return Ok(()), ticks;
    }

    method GroupSetId(id: ID) returns (r: Result<(), Error>)
      modifies this
      ensures Step(me, old(View()), SetId(id), View(), [])
      ensures r.Err? <==> !HasGroup(old(View()))
    {
      var live := LiveValue(meta);
      if live.None? { return Err(NoGroup); }
      var g := LoadRegister(regs);
      regs := regs[me := Reg((g.epoch + 1) % U64, id)];
      return Ok(());
    }

    /** The live entries after the mark, up to count of them. */
    method Pick(mark: ID, count: int) returns (out: seq<ID>)
      ensures Picked(LiveIds(View()), mark, count, out)
    {
      var all := StreamLive(entries);
      assert forall id :: id in all <==> id in LiveIds(View());
      out := [];
      var i := 0;
      var full := false;
      while i < |all| && !full
        invariant 0 <= i <= |all| && Ascending(out)
        invariant forall j :: 0 <= j < |out| ==> out[j] in all[..i] && Lt(mark, out[j])
        invariant forall j :: 0 <= j < i && Lt(mark, all[j]) ==> all[j] in out
        invariant full ==> count > 0 && |out| == count && i > 0 && out[|out| - 1] == all[i - 1]
        invariant !full && count > 0 ==> |out| < count
      {
        if Cmp(all[i], mark) > 0 {
          out := out + [all[i]];
          full := count > 0 && |out| == count;
        }
        i := i + 1;
      }
      forall id | id in LiveIds(View()) && Lt(mark, id) && id !in out
        ensures count > 0 && |out| == count && Lt(out[|out| - 1], id)
      {
        var j :| 0 <= j < |all| && all[j] == id;
      }
    }

    /** gWritePel, gDelPel: this replica's slot of the entry, with a fresh stamp. */
    method WritePel(id: ID, value: Option<Pel>, pt: int, ghost s: State, ghost ws: seq<Change<Pel>>, ghost wall: Times,
                    ghost skip: nat)
      requires AllOut(me, s, ws, clock, pel, wall, skip) && pt == wall(skip + |ws|)
      modifies this`clock, this`pel
      ensures AllOut(me, s, ws + [Change(id, value)], clock, pel, wall, skip)
    {
      OneMoreOut(me, s, ws, Change(id, value), clock, pel, wall, skip);
      clock := Tick(clock, pt);
      pel := Put(pel, me, id, Stamped(clock, value, NO_PEL));
    }

    /** XREADGROUP >: hands out new entries, writes their pending records, and moves the group's register on. */
    method ReadNew(consumer: Bytes, count: int, noack: bool, now: int, wall: Times)
      returns (r: Result<seq<ID>, Error>, ghost ticks: nat)
      modifies this
      ensures r.Err? <==> !HasGroup(old(View()))
      ensures r.Ok? ==> Step(me, old(View()), Read(consumer, count, noack, now, wall, ticks), View(), r.value)
      ensures r.Err? ==> View() == old(View())
    {
      ghost var s := View();
      ticks := 0;
      var live := LiveValue(meta);
      if live.None? { return Err(NoGroup), 0; }
      var g := LoadRegister(regs);
      var out := Pick(g.id, count);
      clock, ticks := Tick(clock, wall(0)), 1;
      assert clock == Reading(s.clock, wall, 1);
      if !noack {
        MarkPending(out, consumer, now, wall, s);
        ticks := 1 + |out|;
      }
      if out != [] { regs := regs[me := Reg(g.epoch, out[|out| - 1])]; }
      ReadIsStep(me, s, Read(consumer, count, noack, now, wall, ticks), View(), out);
      return Ok(out), ticks;
    }

    method MarkPending(out: seq<ID>, consumer: Bytes, now: int, wall: Times, ghost s: State)
      requires pel == s.pel && clock == Reading(s.clock, wall, 1)
      modifies this`clock, this`pel
      ensures AllOut(me, s, ReadWrites(s, consumer, now, out), clock, pel, wall, 1)
    {
      var loaded := pel;
      var i := 0;
      ghost var ws: seq<Change<Pel>> := [];
      NothingOut(me, s, wall, 1);
      while i < |out|
        invariant 0 <= i <= |out| == |ReadWrites(s, consumer, now, out)|
        invariant ws == ReadWrites(s, consumer, now, out)[..i] && AllOut(me, s, ws, clock, pel, wall, 1)
      {
        var prev := 0;
        var v := LiveValue(At(loaded, out[i]));
        if v.Some? { prev := v.value.count; }
        MarkNext(s, consumer, now, out, i);
        WritePel(out[i], Some(Pel(consumer, now, prev + 1)), wall(i + 1), s, ws, wall, 1);
        ws := ReadWrites(s, consumer, now, out)[..i + 1];
        i := i + 1;
      }
      assert ws == ReadWrites(s, consumer, now, out);
    }

    /** XACK: each pending ID named is settled and counted once; a missing group acknowledges nothing. */
    method AckIds(ids: seq<ID>, wall: Times) returns (n: nat)
      modifies this`clock, this`pel
      ensures Step(me, old(View()), Ack(ids, wall, n), View(), [])
      ensures n == if HasGroup(old(View())) then |AckWrites(old(View()), ids)| else 0
    {
      ghost var s := View();
      var live := LiveValue(meta);
      if live.None? { return 0; }
      n := AckLoop(ids, wall, s);
    }

    /** The first ids have been acknowledged, and `loaded` is the loaded list without them. */
    ghost predicate Acked(s: State, ids: seq<ID>, loaded: map<ID, Cands<Pel>>, n: nat, wall: Times)
      reads this
    {
      && LeftOf(s, ids, loaded) && n == |AckWrites(s, ids)|
      && AllOut(me, s, AckWrites(s, ids), clock, pel, wall, 0)
    }

    method AckLoop(ids: seq<ID>, wall: Times, ghost s: State) returns (n: nat)
      requires s == View()
      modifies this`clock, this`pel
      ensures n == |AckWrites(s, ids)| && AllOut(me, s, AckWrites(s, ids), clock, pel, wall, 0)
    {
      var loaded := pel;
      n := 0;
      var i := 0;
      NothingOut(me, s, wall, 0);
      while i < |ids|
        invariant 0 <= i <= |ids| && Acked(s, ids[..i], loaded, n, wall)
      {
        loaded, n := AckOne(ids, i, loaded, n, wall, s);
        i := i + 1;
      }
      assert ids[..|ids|] == ids;
    }

    method AckOne(ids: seq<ID>, i: nat, loaded: map<ID, Cands<Pel>>, n: nat, wall: Times, ghost s: State)
      returns (loaded': map<ID, Cands<Pel>>, n': nat)
      requires i < |ids| && Acked(s, ids[..i], loaded, n, wall)
      modifies this`clock, this`pel
      ensures Acked(s, ids[..i + 1], loaded', n', wall)
    {
      AckNext(s, ids, i);
      LeftNext(s, ids, i, loaded);
      var v := LiveValue(At(loaded, ids[i]));
      loaded', n' := loaded, n;
      if v.Some? {
        WritePel(ids[i], None, wall(n), s, AckWrites(s, ids[..i]), wall, 0);
        loaded', n' := loaded - {ids[i]}, n + 1;
      }
    }

    /** XGROUP DELCONSUMER: everything pending for the consumer is tombstoned and counted; `known` says whether the
        consumer's own slot has to go too. */
    method ConsumerDelete(consumer: Bytes, known: bool, wall: Times)
      returns (r: Result<nat, Error>, ghost order: seq<ID>, ghost ticks: nat)
      modifies this`clock, this`pel
      ensures r == if HasGroup(old(View())) then Ok(|order|) else Err(NoGroup)
      ensures r.Ok? ==> Step(me, old(View()), DeleteConsumer(consumer, order, wall, ticks), View(), [])
      ensures r.Err? ==> View() == old(View())
    {
      ghost var s := View();
      order, ticks := [], 0;
      var live := LiveValue(meta);
      if live.None? { return Err(NoGroup), [], 0; }
      var ids := PendingOf(pel, consumer);
      TombLoop(ids, wall, s);
      order, ticks := ids, |ids|;
      if known { clock, ticks := Tick(clock, wall(|ids|)), |ids| + 1; }
      DeleteIsStep(me, s, DeleteConsumer(consumer, order, wall, ticks), View());
      return Ok(|ids|), order, ticks;
    }

    method TombLoop(ids: seq<ID>, wall: Times, ghost s: State)
      requires s == View()
      modifies this`clock, this`pel
      ensures AllOut(me, s, Tombs(ids), clock, pel, wall, 0)
    {
      var i := 0;
      ghost var ws: seq<Change<Pel>> := [];
      NothingOut(me, s, wall, 0);
      while i < |ids|
        invariant 0 <= i <= |ids| == |Tombs<Pel>(ids)|
        invariant ws == Tombs(ids)[..i] && AllOut(me, s, ws, clock, pel, wall, 0)
      {
        WritePel(ids[i], None, wall(i), s, ws, wall, 0);
        ws := ws + [Change(ids[i], None)];
        i := i + 1;
      }
      assert ws == Tombs(ids);
    }

    /** XCLAIM: every verdict is given on the list as loaded, so repeated IDs get the same one. */
    method ClaimIds(consumer: Bytes, ids: seq<ID>, o: ClaimOpts, now: int, wall: Times)
      returns (r: Result<(seq<ID>, seq<ID>), Error>, ghost ticks: nat)
      modifies this`clock, this`pel
      ensures r.Err? <==> !HasGroup(old(View()))
      ensures r.Ok? ==> Step(me, old(View()), Claim(consumer, ids, o, now, wall, ticks), View(), [])
      ensures r.Ok? ==>
        && r.value.0 == Judged(old(View()), ids, consumer, o, now, true)
        && r.value.1 == Judged(old(View()), ids, consumer, o, now, false)
      ensures r.Err? ==> View() == old(View())
    {
      ghost var s := View();
      ticks := 0;
      var live := LiveValue(meta);
      if live.None? { return Err(NoGroup), 0; }
      var claimed, deleted, n := ClaimLoop(consumer, ids, o, now, wall, s);
      clock, ticks := Tick(clock, wall(n)), n + 1;
      return Ok((claimed, deleted)), ticks;
    }

    /** The first ids have been claimed or dropped. */
    ghost predicate Claimed(s: State, ids: seq<ID>, consumer: Bytes, o: ClaimOpts, now: int, n: nat, wall: Times)
      reads this
    {
      && n == |ClaimWrites(s, ids, consumer, o, now)|
      && AllOut(me, s, ClaimWrites(s, ids, consumer, o, now), clock, pel, wall, 0)
    }

    method ClaimLoop(consumer: Bytes, ids: seq<ID>, o: ClaimOpts, now: int, wall: Times, ghost s: State)
      returns (claimed: seq<ID>, deleted: seq<ID>, n: nat)
      requires s == View()
      modifies this`clock, this`pel
      ensures Claimed(s, ids, consumer, o, now, n, wall)
      ensures claimed == Judged(s, ids, consumer, o, now, true) && deleted == Judged(s, ids, consumer, o, now, false)
    {
      var loaded := pel;
      claimed, deleted, n := [], [], 0;
      var i := 0;
      NothingOut(me, s, wall, 0);
      while i < |ids|
        invariant 0 <= i <= |ids| && entries == s.entries && Claimed(s, ids[..i], consumer, o, now, n, wall)
        invariant claimed == Judged(s, ids[..i], consumer, o, now, true)
        invariant deleted == Judged(s, ids[..i], consumer, o, now, false)
      {
        JudgedNext(s, ids, i, consumer, o, now, true);
        JudgedNext(s, ids, i, consumer, o, now, false);
        var v;
        v, n := ClaimOne(consumer, ids, i, o, now, loaded, n, wall, s);
        if v.Dropped? { deleted := deleted + [ids[i]]; }
        if v.Taken? { claimed := claimed + [ids[i]]; }
        i := i + 1;
      }
      assert ids[..|ids|] == ids;
    }

    method ClaimOne(consumer: Bytes, ids: seq<ID>, i: nat, o: ClaimOpts, now: int, loaded: map<ID, Cands<Pel>>, n: nat,
                    wall: Times, ghost s: State)
      returns (v: Verdict, n': nat)
      requires i < |ids| && loaded == s.pel && entries == s.entries && Claimed(s, ids[..i], consumer, o, now, n, wall)
      modifies this`clock, this`pel
      ensures v == VerdictOn(s, ids[i], consumer, o, now)
      ensures Claimed(s, ids[..i + 1], consumer, o, now, n', wall)
    {
      ghost var ws := ClaimWrites(s, ids[..i], consumer, o, now);
      ClaimNext(s, ids, i, consumer, o, now);
      var p := LiveValue(At(loaded, ids[i]));
      var entry := LiveValue(At(entries, ids[i]));
      v := Judge(p, entry.Some?, consumer, o, now);
      n' := n;
      match v {
        case Dropped =>
          WritePel(ids[i], None, wall(n), s, ws, wall, 0);
          n' := n + 1;
        case Skipped =>
        case Taken(q) =>
          WritePel(ids[i], Some(q), wall(n), s, ws, wall, 0);
          n' := n + 1;
      }
    }
  }
}
