/** The pending list of a consumer group: what each step makes it show, and what stays on it. Every record is a
    last-writer-wins register with one slot per replica, stamped by that replica's own clock. */
module StreamPending {
  import opened Prelude
  import opened ByteStrings
  import opened Hlc
  import opened Slots
  import opened Streams

  // ---- what one step does ----

  /** Node `me` writes this for the entry, with the k-th of the readings its clock makes in the step. */
  ghost predicate Writes(me: Bytes, s: State, s': State, id: ID, wall: Times, ticks: nat, k: nat, value: Option<Pel>) {
    && 0 < k <= ticks && s'.clock == Reading(s.clock, wall, ticks)
    && At(s'.pel, id) == At(s.pel, id)[me := Stamped(Reading(s.clock, wall, k), value, NO_PEL)]
  }

  /** The step leaves the entry's slots alone. */
  ghost predicate Leaves(s: State, s': State, id: ID) { At(s'.pel, id) == At(s.pel, id) }

  /** The writes of a command, as far as one entry goes. */
  ghost predicate WritesAs(me: Bytes, s: State, s': State, id: ID, ws: seq<Change<Pel>>, wall: Times, ticks: nat,
                           skip: nat) {
    var j := LastNaming(ws, id);
    if j.None? then Leaves(s, s', id) else Writes(me, s, s', id, wall, ticks, skip + j.value + 1, ws[j.value].value)
  }

  lemma PutAllWrites(me: Bytes, s: State, s': State, id: ID, ws: seq<Change<Pel>>, wall: Times, ticks: nat, skip: nat)
    requires ticks >= skip + |ws| && s'.clock == Reading(s.clock, wall, ticks)
    requires s'.pel == PutAll(s.pel, me, ws, NO_PEL, s.clock, wall, skip)
    ensures WritesAs(me, s, s', id, ws, wall, ticks, skip)
  {
    PutAllAt(s.pel, me, ws, NO_PEL, s.clock, wall, skip, id);
  }

  lemma LocalWrites(me: Bytes, s: State, a: Action, s': State, out: seq<ID>, id: ID)
    requires Step(me, s, a, s', out) && IsLocal(a)
    ensures WritesAs(me, s, s', id, PelWrites(s, a, out), a.wall, a.ticks, Skip(a))
    ensures s'.clock == Reading(s.clock, a.wall, a.ticks)
  {
    LocalPel(me, s, a, s', out);
    PutAllWrites(me, s, s', id, PelWrites(s, a, out), a.wall, a.ticks, Skip(a));
  }

  lemma LocalPel(me: Bytes, s: State, a: Action, s': State, out: seq<ID>)
    requires IsLocal(a) && LocalStep(me, s, a, s', out)
    ensures a.ticks >= Skip(a) + |PelWrites(s, a, out)| && s'.clock == Reading(s.clock, a.wall, a.ticks)
    ensures s'.pel == PutAll(s.pel, me, PelWrites(s, a, out), NO_PEL, s.clock, a.wall, Skip(a))
  {}

  lemma RemoteWrites(me: Bytes, s: State, a: Action, s': State, id: ID)
    requires Step(me, s, a, s', []) && !IsLocal(a)
    ensures if a.RemotePel? && a.pend == id then a.from != me && At(s'.pel, id) == At(s.pel, id)[a.from := a.record]
            else Leaves(s, s', id)
    ensures !a.Restart? ==> s'.clock == s.clock
  {}

  // ---- which entries a command names ----

  lemma NamingConcat(a: seq<Change<Pel>>, b: seq<Change<Pel>>, id: ID)
    requires |b| <= 1
    ensures LastNaming(a + b, id) == if b != [] && b[0].id == id then Some(|a|) else LastNaming(a, id)
  {
    if b == [] { assert a + b == a; } else { assert (a + b)[..|a|] == a; }
  }

  lemma {:induction false} AckNames(s: State, ids: seq<ID>, id: ID)
    ensures var j := LastNaming(AckWrites(s, ids), id);
      (j.Some? <==> id in ids && Pending(s, id).Some?) && (j.Some? ==> AckWrites(s, ids)[j.value].value == None)
  {
    if ids != [] {
      var n := |ids| - 1;
      AckNames(s, ids[..n], id);
      assert ids == ids[..n] + [ids[n]];
      NamingConcat(AckWrites(s, ids[..n]), AckWrite(ids[n], Pending(s, ids[n]).Some? && ids[n] !in ids[..n]), id);
    }
  }

  /** Of the changes made for these IDs, the entry's are by its verdict. */
  predicate ByVerdict(ws: seq<Change<Pel>>, ids: seq<ID>, id: ID, v: Verdict) {
    var j := LastNaming(ws, id);
    && (j.Some? <==> id in ids && !v.Skipped?)
    && (j.Some? ==> ws[j.value].value == if v.Taken? then Some(v.pel) else None)
  }

  lemma NextVerdict(ws: seq<Change<Pel>>, ids: seq<ID>, next: ID, w: Verdict, id: ID, v: Verdict)
    requires ByVerdict(ws, ids, id, v) && (next == id ==> w == v)
    ensures ByVerdict(ws + ClaimWrite(next, w), ids + [next], id, v)
  {
    NamingConcat(ws, ClaimWrite(next, w), id);
  }

  lemma {:induction false} ClaimNames(s: State, ids: seq<ID>, claimer: Bytes, o: ClaimOpts, now: int, id: ID)
    ensures ByVerdict(ClaimWrites(s, ids, claimer, o, now), ids, id, VerdictOn(s, id, claimer, o, now))
  {
    if ids != [] {
      var n := |ids| - 1;
      ClaimNames(s, ids[..n], claimer, o, now, id);
      assert ids == ids[..n] + [ids[n]];
      var v, w := VerdictOn(s, id, claimer, o, now), VerdictOn(s, ids[n], claimer, o, now);
      NextVerdict(ClaimWrites(s, ids[..n], claimer, o, now), ids[..n], ids[n], w, id, v);
    }
  }

  lemma TombNames(ids: seq<ID>, id: ID)
    ensures LastNaming(Tombs<Pel>(ids), id).Some? <==> id in ids
  {
    if id in ids {
      var i :| 0 <= i < |ids| && ids[i] == id;
      assert Tombs<Pel>(ids)[i].id == id;
    }
  }

  lemma ReadNames(s: State, consumer: Bytes, at: int, out: seq<ID>, id: ID)
    ensures var ws := ReadWrites(s, consumer, at, out);
      var j := LastNaming(ws, id);
      (j.Some? <==> id in out) && (j.Some? ==> ws[j.value].value == Some(Pel(consumer, at, Count(Pending(s, id)) + 1)))
  {
    var ws := ReadWrites(s, consumer, at, out);
    if id in out {
      var i :| 0 <= i < |out| && out[i] == id;
      assert ws[i].id == id;
    }
  }

  lemma ReadNamesAt(s: State, consumer: Bytes, at: int, out: seq<ID>, i: nat)
    requires i < |out| && Ascending(out)
    ensures LastNaming(ReadWrites(s, consumer, at, out), out[i]) == Some(i)
  {
    var ws := ReadWrites(s, consumer, at, out);
    assert ws[i].id == out[i];
    var j := LastNaming(ws, out[i]).value;
    assert out[j] == ws[j].id;
  }

  // ---- deliveries and acknowledgements ----

  /** The record of an entry delivered once more. */
  ghost function Redelivered(s: State, consumer: Bytes, at: int, id: ID): Option<Pel> {
    Some(Pel(consumer, at, Count(Pending(s, id)) + 1))
  }

  /** The step hands out entries to be acknowledged. */
  ghost predicate Delivers(s: State, a: Action, out: seq<ID>) { a.Read? && !a.noack && HasGroup(s) && out != [] }

  lemma DeliveryWrites(me: Bytes, s: State, a: Action, s': State, out: seq<ID>, i: nat)
    requires Step(me, s, a, s', out) && Delivers(s, a, out) && i < |out|
    ensures Writes(me, s, s', out[i], a.wall, a.ticks, i + 2, Redelivered(s, a.consumer, a.at, out[i]))
  {
    ReadDoes(me, s, a, s', out);
    LocalWrites(me, s, a, s', out, out[i]);
    ReadWritesAt(me, s, s', a.consumer, a.at, a.wall, a.ticks, out, i);
  }

  lemma ReadWritesAt(me: Bytes, s: State, s': State, consumer: Bytes, at: int, wall: Times, ticks: nat, out: seq<ID>,
                     i: nat)
    requires i < |out| && Ascending(out)
    requires WritesAs(me, s, s', out[i], ReadWrites(s, consumer, at, out), wall, ticks, 1)
    ensures Writes(me, s, s', out[i], wall, ticks, i + 2, Redelivered(s, consumer, at, out[i]))
  {
    ReadNamesAt(s, consumer, at, out, i);
  }

  ghost predicate Acknowledges(s: State, a: Action, id: ID) {
    a.Ack? && HasGroup(s) && id in a.ids && Pending(s, id).Some?
  }

  /** Which of the acknowledgement's readings stamps the entry's tombstone. */
  ghost function AckPlace(s: State, a: Action, id: ID): nat
    requires Acknowledges(s, a, id)
  {
    AckNames(s, a.ids, id);
    LastNaming(AckWrites(s, a.ids), id).value + 1
  }

  lemma AckWritesTomb(me: Bytes, s: State, a: Action, s': State, id: ID)
    requires Step(me, s, a, s', []) && Acknowledges(s, a, id)
    ensures Writes(me, s, s', id, a.wall, a.ticks, AckPlace(s, a, id), None)
  {
    AckNames(s, a.ids, id);
    LocalWrites(me, s, a, s', [], id);
  }

  /** What other replicas' slots show of an entry. */
  ghost function Elsewhere(s: State, me: Bytes, id: ID): Option<Pel> { Value(At(s.pel, id) - {me}) }

  /** The k-th reading of the clock beats every slot other replicas have for the entry. */
  ghost predicate Leads(me: Bytes, s: State, id: ID, wall: Times, k: nat) {
    Beats(At(s.pel, id), me, Reading(s.clock, wall, k))
  }

  /** A write shows exactly when its stamp leads; otherwise the other replicas' slots go on showing. */
  lemma WrittenShowsIff(me: Bytes, s: State, s': State, id: ID, wall: Times, ticks: nat, k: nat, value: Option<Pel>)
    requires Writes(me, s, s', id, wall, ticks, k, value)
    ensures Pending(s', id) == if Leads(me, s, id, wall, k) then value else Elsewhere(s, me, id)
  {
    WriteShowsIff(At(s.pel, id), me, Stamped(Reading(s.clock, wall, k), value, NO_PEL));
  }

  /** An entry handed out pends for its consumer, with one delivery more, exactly when the record's stamp beats
      every slot other replicas have for the entry. */
  lemma DeliveredPendingIff(me: Bytes, s: State, a: Action, s': State, out: seq<ID>, i: nat)
    requires Step(me, s, a, s', out) && Delivers(s, a, out) && i < |out|
    ensures Pending(s', out[i]) ==
      if Leads(me, s, out[i], a.wall, i + 2) then Redelivered(s, a.consumer, a.at, out[i])
      else Elsewhere(s, me, out[i])
  {
    DeliveryWrites(me, s, a, s', out, i);
    WrittenShowsIff(me, s, s', out[i], a.wall, a.ticks, i + 2, Redelivered(s, a.consumer, a.at, out[i]));
  }

  /** An acknowledged entry is settled exactly when the tombstone's stamp beats them. */
  lemma AckedSettledIff(me: Bytes, s: State, a: Action, s': State, id: ID)
    requires Step(me, s, a, s', []) && Acknowledges(s, a, id)
    ensures Pending(s', id) == if Leads(me, s, id, a.wall, AckPlace(s, a, id)) then None else Elsewhere(s, me, id)
  {
    AckWritesTomb(me, s, a, s', id);
    WrittenShowsIff(me, s, s', id, a.wall, a.ticks, AckPlace(s, a, id), None);
  }

  /** What every step makes pending, of any entry. */
  lemma PendingAfter(me: Bytes, s: State, a: Action, s': State, out: seq<ID>, id: ID)
    requires Step(me, s, a, s', out)
    ensures
      if IsLocal(a) then ShowsAs(me, s, s', id, PelWrites(s, a, out), a.wall, Skip(a))
      else if a.RemotePel? && a.pend == id then
        Pending(s', id) ==
          if Beats(At(s.pel, id), a.from, a.record.stamp) then Shown(a.record) else Elsewhere(s, a.from, id)
      else Pending(s', id) == Pending(s, id)
  {
    if IsLocal(a) {
      LocalAfter(me, s, a, s', out, id);
    } else {
      RemoteWrites(me, s, a, s', id);
      if a.RemotePel? && a.pend == id { WriteShowsIff(At(s.pel, id), a.from, a.record); }
    }
  }

  lemma LocalAfter(me: Bytes, s: State, a: Action, s': State, out: seq<ID>, id: ID)
    requires Step(me, s, a, s', out) && IsLocal(a)
    ensures ShowsAs(me, s, s', id, PelWrites(s, a, out), a.wall, Skip(a))
  {
    LocalWrites(me, s, a, s', out, id);
    WrittenShowsAs(me, s, s', id, PelWrites(s, a, out), a.wall, a.ticks, Skip(a));
  }

  ghost predicate ShowsAs(me: Bytes, s: State, s': State, id: ID, ws: seq<Change<Pel>>, wall: Times, skip: nat) {
    var j := LastNaming(ws, id);
    Pending(s', id) ==
      if j.None? then Pending(s, id)
      else if Leads(me, s, id, wall, skip + j.value + 1) then ws[j.value].value else Elsewhere(s, me, id)
  }

  lemma WrittenShowsAs(me: Bytes, s: State, s': State, id: ID, ws: seq<Change<Pel>>, wall: Times, ticks: nat, skip: nat)
    requires WritesAs(me, s, s', id, ws, wall, ticks, skip)
    ensures ShowsAs(me, s, s', id, ws, wall, skip)
  {
    var j := LastNaming(ws, id);
    if j.Some? { WrittenShowsIff(me, s, s', id, wall, ticks, skip + j.value + 1, ws[j.value].value); }
  }

  // ---- what rules goes on ruling ----

  /** This replica's slot for the entry is the one that shows, and its clock is not behind it. */
  ghost predicate Rules(s: State, me: Bytes, id: ID) {
    Wins(At(s.pel, id), me) && Fits(s.clock) && !Before(s.clock, At(s.pel, id)[me].stamp)
  }

  /** The readings of the clock go forward. */
  predicate Forward(clock: Stamp, wall: Times, ticks: nat) {
    Fits(clock) && AllWalls(wall, ticks) && NeverExhausted(clock, wall, ticks)
  }

  /** The clock neither restarts nor runs out of counter in the step. */
  predicate Advancing(s: State, a: Action) { !a.Restart? && (IsLocal(a) ==> Forward(s.clock, a.wall, a.ticks)) }

  /** A slot arrives that is later than this replica's. */
  predicate Overtakes(s: State, me: Bytes, a: Action, id: ID) {
    a.RemotePel? && a.pend == id && me in At(s.pel, id) && Older(At(s.pel, id)[me].stamp, me, a.record.stamp, a.from)
  }

  lemma NotAhead(clock: Stamp, wall: Times, ticks: nat, k: nat)
    requires Forward(clock, wall, ticks) && k <= ticks
    ensures Fits(Reading(clock, wall, ticks)) && !Before(Reading(clock, wall, ticks), Reading(clock, wall, k))
  {
    ReadingFits(clock, wall, ticks, ticks);
    if k < ticks { LaterReading(clock, wall, ticks, k, ticks); }
  }

  /** A write rules exactly when its stamp leads. */
  lemma RulesIff(me: Bytes, s: State, s': State, id: ID, wall: Times, ticks: nat, k: nat, value: Option<Pel>)
    requires Writes(me, s, s', id, wall, ticks, k, value) && Forward(s.clock, wall, ticks)
    ensures Rules(s', me, id) <==> Leads(me, s, id, wall, k)
  {
    NotAhead(s.clock, wall, ticks, k);
    WriteShowsIff(At(s.pel, id), me, Stamped(Reading(s.clock, wall, k), value, NO_PEL));
  }

  /** A slot that rules is rewritten with a later stamp. */
  lemma RewrittenRules(me: Bytes, s: State, s': State, id: ID, wall: Times, ticks: nat, k: nat, value: Option<Pel>)
    requires Writes(me, s, s', id, wall, ticks, k, value) && Forward(s.clock, wall, ticks) && Rules(s, me, id)
    ensures Rules(s', me, id)
  {
    LaterReading(s.clock, wall, ticks, 0, k);
    LaterBeats(At(s.pel, id), me, s.clock, Reading(s.clock, wall, k));
    RulesIff(me, s, s', id, wall, ticks, k, value);
  }

  lemma LaterBeats(c: Cands<Pel>, me: Bytes, clock: Stamp, st: Stamp)
    requires Wins(c, me) && !Before(clock, c[me].stamp) && Before(clock, st)
    ensures Beats(c, me, st)
  {
    forall q | q in c && q != me ensures Older(c[q].stamp, q, st, me) {
      OlderTrans(c[q].stamp, q, c[me].stamp, me, st, me);
    }
  }

  lemma LeftRules(s: State, s': State, me: Bytes, id: ID)
    requires Rules(s, me, id) && Leaves(s, s', id) && Fits(s'.clock) && !Before(s'.clock, s.clock)
    ensures Rules(s', me, id) && At(s'.pel, id)[me] == At(s.pel, id)[me]
  {}

  lemma StillRules(s: State, s': State, me: Bytes, id: ID, from: Bytes, slot: Slot<Pel>)
    requires Rules(s, me, id) && from != me && !Older(At(s.pel, id)[me].stamp, me, slot.stamp, from)
    requires At(s'.pel, id) == At(s.pel, id)[from := slot] && s'.clock == s.clock
    ensures Rules(s', me, id) && At(s'.pel, id)[me] == At(s.pel, id)[me]
  {
    OlderTotal(At(s.pel, id)[me].stamp, me, slot.stamp, from);
  }

  /** A slot that rules goes on ruling until a later one arrives, and is the same unless a command writes it. */
  lemma RulesOn(me: Bytes, s: State, a: Action, s': State, out: seq<ID>, id: ID)
    requires Step(me, s, a, s', out) && Rules(s, me, id) && Advancing(s, a) && !Overtakes(s, me, a, id)
    ensures Rules(s', me, id) && OwnAs(me, s, s', id, PelWrites(s, a, out))
  {
    if IsLocal(a) {
      LocalRulesOn(me, s, a, s', out, id);
    } else {
      RemoteWrites(me, s, a, s', id);
      if a.RemotePel? && a.pend == id {
        StillRules(s, s', me, id, a.from, a.record);
      } else {
        LeftRules(s, s', me, id);
      }
    }
  }

  lemma LocalRulesOn(me: Bytes, s: State, a: Action, s': State, out: seq<ID>, id: ID)
    requires Step(me, s, a, s', out) && Rules(s, me, id) && IsLocal(a) && Forward(s.clock, a.wall, a.ticks)
    ensures Rules(s', me, id) && OwnAs(me, s, s', id, PelWrites(s, a, out))
  {
    LocalWrites(me, s, a, s', out, id);
    WrittenRulesOn(me, s, s', id, PelWrites(s, a, out), a.wall, a.ticks, Skip(a));
  }

  /** This replica's slot is as the changes say, and otherwise unchanged. */
  ghost predicate OwnAs(me: Bytes, s: State, s': State, id: ID, ws: seq<Change<Pel>>) {
    me in At(s.pel, id) && me in At(s'.pel, id) &&
    var j := LastNaming(ws, id);
    if j.Some? then Shown(At(s'.pel, id)[me]) == ws[j.value].value else At(s'.pel, id)[me] == At(s.pel, id)[me]
  }

  lemma WrittenRulesOn(me: Bytes, s: State, s': State, id: ID, ws: seq<Change<Pel>>, wall: Times, ticks: nat, skip: nat)
    requires WritesAs(me, s, s', id, ws, wall, ticks, skip) && s'.clock == Reading(s.clock, wall, ticks)
    requires Rules(s, me, id) && Forward(s.clock, wall, ticks)
    ensures Rules(s', me, id) && OwnAs(me, s, s', id, ws)
  {
    var j := LastNaming(ws, id);
    if j.Some? {
      RewrittenRules(me, s, s', id, wall, ticks, skip + j.value + 1, ws[j.value].value);
    } else {
      NotAhead(s.clock, wall, ticks, 0);
      LeftRules(s, s', me, id);
    }
  }

  /** A wall clock ahead of every stamp held for the entry is enough to lead. */
  lemma WallAheadLeads(me: Bytes, s: State, id: ID, wall: Times, k: nat)
    requires k > 0
    requires forall q :: q in At(s.pel, id) && q != me ==> At(s.pel, id)[q].stamp.wall < wall(k - 1)
    ensures Leads(me, s, id, wall, k)
  {
    ReadingPastWall(s.clock, wall, k);
  }

  // ---- what stays pending ----

  /** The command may settle the entry: it acknowledges it, finds it gone from the stream, or deletes its consumer or
      the group. */
  ghost predicate Settles(s: State, a: Action, id: ID) {
    || (a.Ack? && id in a.ids)
    || (a.Claim? && id in a.claims && !InStream(s, id))
    || (a.DeleteConsumer? && PendingFor(s, id, a.deleted))
    || a.Destroy?
  }

  /** The entries a whole consumer's or group's deletion names. */
  ghost predicate Orders(s: State, a: Action) {
    HasGroup(s) ==>
      && (a.DeleteConsumer? ==> forall id :: id in a.order <==> PendingFor(s, id, a.deleted))
      && (a.Destroy? ==> forall id :: id in a.order <==> Pending(s, id).Some?)
  }

  lemma StepOrders(me: Bytes, s: State, a: Action, s': State, out: seq<ID>)
    requires Step(me, s, a, s', out)
    ensures Orders(s, a)
  {}

  /** Only such a command writes a tombstone. */
  lemma OnlySettling(s: State, a: Action, out: seq<ID>, id: ID)
    requires Orders(s, a) && LastNaming(PelWrites(s, a, out), id).Some? && !Settles(s, a, id)
    ensures PelWrites(s, a, out)[LastNaming(PelWrites(s, a, out), id).value].value.Some?
  {
    match a
    case Read(consumer, _, _, at, _, _) => ReadNames(s, consumer, at, out, id);
    case Ack(ids, _, _) => AckNames(s, ids, id);
    case Claim(claimer, claims, opts, time, _, _) => ClaimNames(s, claims, claimer, opts, time, id);
    case DeleteConsumer(_, order, _, _) => TombNames(order, id);
    case _ =>
  }

  /** The entry is pending by this replica's own record. */
  ghost predicate OwnPending(s: State, me: Bytes, id: ID) { Rules(s, me, id) && Shown(At(s.pel, id)[me]).Some? }

  /** Nothing in the step ends the rule of this replica's record. */
  ghost predicate Undisturbed(me: Bytes, s: State, a: Action, id: ID) {
    Advancing(s, a) && !Overtakes(s, me, a, id) && !Settles(s, a, id)
  }

  lemma OwnPendingOn(me: Bytes, s: State, a: Action, s': State, out: seq<ID>, id: ID)
    requires Step(me, s, a, s', out) && OwnPending(s, me, id) && Undisturbed(me, s, a, id)
    ensures OwnPending(s', me, id)
  {
    RulesOn(me, s, a, s', out, id);
    StepOrders(me, s, a, s', out);
    if LastNaming(PelWrites(s, a, out), id).Some? { OnlySettling(s, a, out, id); }
  }

  /** What each step keeps, a run keeps. */
  lemma {:induction false} PendingThroughout(states: seq<State>, me: Bytes, j: nat, k: nat, id: ID)
    requires j <= k < |states| && OwnPending(states[j], me, id)
    requires forall i :: j <= i < k && OwnPending(states[i], me, id) ==> OwnPending(states[i + 1], me, id)
    ensures OwnPending(states[k], me, id)
  {
    if j < k { PendingThroughout(states, me, j, k - 1, id); }
  }

  /** Every entry delivered with a record that leads stays pending, whatever else is delivered, claimed or received,
      until it is settled here or a slot with a later stamp arrives. */
  lemma DeliveredStaysPending(me: Bytes, t: Trace, j: nat, k: nat, i: nat)
    requires IsTrace(me, t) && j < k <= |t.acts| && Delivers(t.states[j], t.acts[j], t.outs[j]) && i < |t.outs[j]|
    requires Forward(t.states[j].clock, t.acts[j].wall, t.acts[j].ticks)
    requires Leads(me, t.states[j], t.outs[j][i], t.acts[j].wall, i + 2)
    requires forall n :: j < n < k ==> Undisturbed(me, t.states[n], t.acts[n], t.outs[j][i])
    ensures Pending(t.states[k], t.outs[j][i]).Some?
  {
    var id := t.outs[j][i];
    DeliveryRules(me, t.states[j], t.acts[j], t.states[j + 1], t.outs[j], i);
    forall n | j + 1 <= n < k && OwnPending(t.states[n], me, id) ensures OwnPending(t.states[n + 1], me, id) {
      OwnPendingOn(me, t.states[n], t.acts[n], t.states[n + 1], t.outs[n], id);
    }
    PendingThroughout(t.states, me, j + 1, k, id);
    ValueOf(At(t.states[k].pel, id), me);
  }

  lemma DeliveryRules(me: Bytes, s: State, a: Action, s': State, out: seq<ID>, i: nat)
    requires Step(me, s, a, s', out) && Delivers(s, a, out) && i < |out| && Forward(s.clock, a.wall, a.ticks)
    requires Leads(me, s, out[i], a.wall, i + 2)
    ensures OwnPending(s', me, out[i])
  {
    DeliveryWrites(me, s, a, s', out, i);
    RulesIff(me, s, s', out[i], a.wall, a.ticks, i + 2, Redelivered(s, a.consumer, a.at, out[i]));
  }

  // ---- what stays settled ----

  predicate Revives(a: Action, out: seq<ID>, id: ID) {
    (a.Read? && id in out) || (a.Claim? && id in a.claims && a.opts.force)
  }

  /** The entry is settled by this replica's own tombstone. */
  ghost predicate OwnSettled(s: State, me: Bytes, id: ID) { Rules(s, me, id) && Shown(At(s.pel, id)[me]).None? }

  ghost predicate LeftSettled(me: Bytes, s: State, a: Action, out: seq<ID>, id: ID) {
    Advancing(s, a) && !Overtakes(s, me, a, id) && !Revives(a, out, id)
  }

  /** Nothing but a delivery or a forced claim writes a slot for an entry that is not pending. */
  lemma NotNamedUnlessRevived(s: State, a: Action, out: seq<ID>, id: ID)
    requires Orders(s, a) && Pending(s, id).None? && !Revives(a, out, id)
    ensures LastNaming(PelWrites(s, a, out), id).None?
  {
    match a
    case Read(consumer, _, _, at, _, _) => ReadNames(s, consumer, at, out, id);
    case Ack(ids, _, _) => AckNames(s, ids, id);
    case Claim(claimer, claims, opts, time, _, _) => ClaimNames(s, claims, claimer, opts, time, id);
    case DeleteConsumer(_, order, _, _) => TombNames(order, id);
    case Destroy(order, _, _) => TombNames(order, id);
    case _ =>
  }

  lemma OwnSettledOn(me: Bytes, s: State, a: Action, s': State, out: seq<ID>, id: ID)
    requires Step(me, s, a, s', out) && OwnSettled(s, me, id) && LeftSettled(me, s, a, out, id)
    ensures OwnSettled(s', me, id)
  {
    ValueOf(At(s.pel, id), me);
    StepOrders(me, s, a, s', out);
    NotNamedUnlessRevived(s, a, out, id);
    RulesOn(me, s, a, s', out, id);
  }

  lemma {:induction false} SettledThroughout(states: seq<State>, me: Bytes, j: nat, k: nat, id: ID)
    requires j <= k < |states| && OwnSettled(states[j], me, id)
    requires forall i :: j <= i < k && OwnSettled(states[i], me, id) ==> OwnSettled(states[i + 1], me, id)
    ensures OwnSettled(states[k], me, id)
  {
    if j < k { SettledThroughout(states, me, j, k - 1, id); }
  }

  /** An acknowledgement that leads holds until the entry is handed out again, claimed by force, or a slot with a
      later stamp arrives. */
  lemma AckedStaysSettled(me: Bytes, t: Trace, j: nat, k: nat, id: ID)
    requires IsTrace(me, t) && j < k <= |t.acts| && Acknowledges(t.states[j], t.acts[j], id)
    requires Forward(t.states[j].clock, t.acts[j].wall, t.acts[j].ticks)
    requires Leads(me, t.states[j], id, t.acts[j].wall, AckPlace(t.states[j], t.acts[j], id))
    requires forall n :: j < n < k ==> LeftSettled(me, t.states[n], t.acts[n], t.outs[n], id)
    ensures Pending(t.states[k], id).None?
  {
    AckRules(me, t.states[j], t.acts[j], t.states[j + 1], id);
    forall n | j + 1 <= n < k && OwnSettled(t.states[n], me, id) ensures OwnSettled(t.states[n + 1], me, id) {
      OwnSettledOn(me, t.states[n], t.acts[n], t.states[n + 1], t.outs[n], id);
    }
    SettledThroughout(t.states, me, j + 1, k, id);
    ValueOf(At(t.states[k].pel, id), me);
  }

  lemma AckRules(me: Bytes, s: State, a: Action, s': State, id: ID)
    requires Step(me, s, a, s', []) && Acknowledges(s, a, id) && Forward(s.clock, a.wall, a.ticks)
    requires Leads(me, s, id, a.wall, AckPlace(s, a, id))
    ensures OwnSettled(s', me, id)
  {
    AckWritesTomb(me, s, a, s', id);
    RulesIff(me, s, s', id, a.wall, a.ticks, AckPlace(s, a, id), None);
  }

  // ---- clocks that differ ----

  const ENTRY: ID := ID(1, 0)

  /** One entry, and a group that is there; the clock, the register and the entry's pending slots vary. */
  function Node(me: Bytes, clock: Stamp, reg: Reg, slots: Cands<Pel>): State {
    State(clock, map[ENTRY := map[me := Slot(Stamp(1, 0), TAG_PRESENT, [])]], map[me := ENTRY],
          map[me := Slot(Stamp(1, 0), TAG_PRESENT, ())], map[me := reg], map[ENTRY := slots])
  }

  lemma NodeShows(me: Bytes, clock: Stamp, reg: Reg, slots: Cands<Pel>)
    ensures var s := Node(me, clock, reg, slots);
      HasGroup(s) && LiveIds(s) == {ENTRY} && Pending(s, ENTRY) == Value(slots)
    ensures reg.epoch > 0 || reg.id == ZERO ==> Merged(map[me := reg]) == reg
  {
    var s := Node(me, clock, reg, slots);
    ValueOf(s.meta, me);
    ValueOf(s.entries[ENTRY], me);
    assert InStream(s, ENTRY);
    assert s.regs[me] == reg;
    if reg.epoch > 0 || reg.id == ZERO { MergedUnique(s.regs, reg); }
  }

  /** A read hands out the entry and writes its record. */
  lemma ReadStep(me: Bytes, clock: Stamp, reg: Reg, slots: Cands<Pel>, at: int, wall: Times)
    requires (reg.epoch > 0 || reg == Reg(0, ZERO)) && reg.id == ZERO
    ensures
      var st := Reading(clock, wall, 2);
      var record := Slot(st, TAG_PRESENT, Pel([], at, Count(Value(slots)) + 1));
      Step(me, Node(me, clock, reg, slots), Read([], 0, false, at, wall, 2),
           Node(me, st, Reg(reg.epoch, ENTRY), slots[me := record]), [ENTRY])
  {
    var s := Node(me, clock, reg, slots);
    NodeShows(me, clock, reg, slots);
    var a := Read([], 0, false, at, wall, 2);
    var ws := ReadWrites(s, [], at, [ENTRY]);
    assert ws == [Change(ENTRY, Some(Pel([], at, Count(Value(slots)) + 1)))];
    assert PelWrites(s, a, [ENTRY]) == ws;
    PutOne(s.pel, me, ENTRY, ws[0].value, clock, wall, 1);
    assert s.regs[me := Reg(reg.epoch, ENTRY)] == map[me := Reg(reg.epoch, ENTRY)];
  }

  const FIRST: Slot<Pel> := Slot(Stamp(5, 1), TAG_PRESENT, Pel([], 5, 1))
  const ACK: Slot<Pel> := Slot(Stamp(10, 0), TAG_DELETED, NO_PEL)
  const SECOND: Slot<Pel> := Slot(Stamp(6, 1), TAG_PRESENT, Pel([], 6, 1))

  function Always(ms: int): Times { (i: nat) => ms }

  lemma FirstRead(me: Bytes)
    ensures Step(me, Node(me, Stamp(1, 0), Reg(0, ZERO), map[]), Read([], 0, false, 5, Always(5), 2),
                 Node(me, Stamp(5, 1), Reg(0, ENTRY), map[me := FIRST]), [ENTRY])
  {
    ReadStep(me, Stamp(1, 0), Reg(0, ZERO), map[], 5, Always(5));
    assert Reading(Stamp(1, 0), Always(5), 1) == Stamp(5, 0) && Reading(Stamp(1, 0), Always(5), 2) == Stamp(5, 1);
  }

  lemma SecondRead(me: Bytes, other: Bytes, slots: Cands<Pel>)
    requires me != other && slots == map[me := FIRST, other := ACK]
    ensures Step(me, Node(me, Stamp(5, 1), Reg(1, ZERO), slots), Read([], 0, false, 6, Always(6), 2),
                 Node(me, Stamp(6, 1), Reg(1, ENTRY), slots[me := SECOND]), [ENTRY])
  {
    ValueOf(slots, other);
    ReadStep(me, Stamp(5, 1), Reg(1, ZERO), slots, 6, Always(6));
    assert Reading(Stamp(5, 1), Always(6), 1) == Stamp(6, 0) && Reading(Stamp(5, 1), Always(6), 2) == Stamp(6, 1);
  }

  /** A run of n steps leads from the first state to the last. */
  ghost predicate Reaches(me: Bytes, t: Trace, n: nat, s: State) { IsTrace(me, t) && |t.acts| == n && t.states[n] == s }

  lemma Extend(me: Bytes, t: Trace, n: nat, s: State, a: Action, s': State, out: seq<ID>) returns (t': Trace)
    requires Reaches(me, t, n, s) && Step(me, s, a, s', out)
    ensures Reaches(me, t', n + 1, s') && t'.states[n] == s && t'.acts[n] == a && t'.outs[n] == out
  {
    t' := Trace(t.states + [s'], t.acts + [a], t.outs + [out]);
    forall i | 0 <= i < n + 1 ensures Step(me, t'.states[i], t'.acts[i], t'.states[i + 1], t'.outs[i]) {
      if i < n { assert Step(me, t.states[i], t.acts[i], t.states[i + 1], t.outs[i]); }
    }
  }

  lemma ReadThenAcked(me: Bytes, other: Bytes, both: Cands<Pel>) returns (t: Trace)
    requires me != other && both == map[me := FIRST, other := ACK]
    ensures Reaches(me, t, 3, Node(me, Stamp(5, 1), Reg(1, ZERO), both))
  {
    var s0, s1 := Node(me, Stamp(1, 0), Reg(0, ZERO), map[]), Node(me, Stamp(5, 1), Reg(0, ENTRY), map[me := FIRST]);
    var s2 := Node(me, Stamp(5, 1), Reg(0, ENTRY), both);
    FirstRead(me);
    t := Extend(me, Trace([s0], [], []), 0, s0, Read([], 0, false, 5, Always(5), 2), s1, [ENTRY]);
    RemoteStep(me, Stamp(5, 1), Reg(0, ENTRY), map[me := FIRST], other, ACK);
    assert map[me := FIRST][other := ACK] == both;
    t := Extend(me, t, 1, s1, RemotePel(other, ENTRY, ACK), s2, []);
    SetIdStep(me, Stamp(5, 1), both);
    t := Extend(me, t, 2, s2, SetId(ZERO), Node(me, Stamp(5, 1), Reg(1, ZERO), both), []);
  }

  /** A replica whose clock is ahead acknowledges what this node then delivers again: the new record loses to the
      older acknowledgement, and the entry is delivered and not pending. */
  lemma DeliveredNotPending(me: Bytes, other: Bytes) returns (t: Trace)
    requires me != other
    ensures IsTrace(me, t) && |t.acts| == 4 && Delivers(t.states[3], t.acts[3], t.outs[3])
    ensures t.outs[3] == [ENTRY] && Pending(t.states[4], ENTRY).None?
  {
    var both: Cands<Pel> := map[me := FIRST, other := ACK];
    var s3, s4 := Node(me, Stamp(5, 1), Reg(1, ZERO), both), Node(me, Stamp(6, 1), Reg(1, ENTRY), both[me := SECOND]);
    t := ReadThenAcked(me, other, both);
    SecondRead(me, other, both);
    t := Extend(me, t, 3, s3, Read([], 0, false, 6, Always(6), 2), s4, [ENTRY]);
    NodeShows(me, Stamp(5, 1), Reg(1, ZERO), both);
    SecondLoses(me, other, both);
  }

  lemma SecondLoses(me: Bytes, other: Bytes, slots: Cands<Pel>)
    requires me != other && slots == map[me := FIRST, other := ACK]
    ensures Pending(Node(me, Stamp(6, 1), Reg(1, ENTRY), slots[me := SECOND]), ENTRY).None?
  {
    ValueOf(slots[me := SECOND], other);
  }

  lemma RemoteStep(me: Bytes, clock: Stamp, reg: Reg, slots: Cands<Pel>, other: Bytes, slot: Slot<Pel>)
    requires me != other
    ensures Step(me, Node(me, clock, reg, slots), RemotePel(other, ENTRY, slot),
                 Node(me, clock, reg, slots[other := slot]), [])
  {}

  lemma SetIdStep(me: Bytes, clock: Stamp, slots: Cands<Pel>)
    ensures Step(me, Node(me, clock, Reg(0, ENTRY), slots), SetId(ZERO), Node(me, clock, Reg(1, ZERO), slots), [])
  {
    NodeShows(me, clock, Reg(0, ENTRY), slots);
    var regs := map[me := Reg(0, ENTRY)];
    assert regs[me] == Reg(0, ENTRY);
    MergedUnique(regs, Reg(0, ENTRY));
    assert regs[me := Reg(1, ZERO)] == map[me := Reg(1, ZERO)];
  }

  /** And an acknowledgement here loses to a record delivered earlier where the clock is ahead. */
  lemma AckedStillPending(me: Bytes, other: Bytes) returns (s: State, a: Action, s': State)
    requires me != other
    ensures Step(me, s, a, s', []) && Acknowledges(s, a, ENTRY) && Pending(s', ENTRY).Some?
  {
    var record := Slot(Stamp(10, 0), TAG_PRESENT, Pel([], 10, 1));
    var slots: Cands<Pel> := map[other := record];
    var after := slots[me := Slot(Stamp(5, 0), TAG_DELETED, NO_PEL)];
    s, a := Node(me, Stamp(1, 0), Reg(0, ZERO), slots), Ack([ENTRY], Always(5), 1);
    s' := Node(me, Stamp(5, 0), Reg(0, ZERO), after);
    ValueOf(slots, other);
    ValueOf(after, other);
    NodeShows(me, Stamp(1, 0), Reg(0, ZERO), slots);
    NodeShows(me, Stamp(5, 0), Reg(0, ZERO), after);
    AckStep(me, Stamp(1, 0), slots, Always(5));
    assert Reading(Stamp(1, 0), Always(5), 1) == Stamp(5, 0);
  }

  lemma AckStep(me: Bytes, clock: Stamp, slots: Cands<Pel>, wall: Times)
    requires Value(slots).Some?
    ensures
      var st := Reading(clock, wall, 1);
      Step(me, Node(me, clock, Reg(0, ZERO), slots), Ack([ENTRY], wall, 1),
           Node(me, st, Reg(0, ZERO), slots[me := Slot(st, TAG_DELETED, NO_PEL)]), [])
  {
    var s := Node(me, clock, Reg(0, ZERO), slots);
    NodeShows(me, clock, Reg(0, ZERO), slots);
    AckOne(s, ENTRY);
    PutOne(s.pel, me, ENTRY, None, clock, wall, 0);
  }

  lemma AckOne(s: State, id: ID)
    requires Pending(s, id).Some?
    ensures AckWrites(s, [id]) == [Change(id, None)]
  {
    assert [id][..0] == [] && AckWrites(s, []) == [];
  }

  lemma PutOne(m: map<ID, Cands<Pel>>, me: Bytes, id: ID, value: Option<Pel>, clock: Stamp, wall: Times, skip: nat)
    ensures PutAll(m, me, [Change(id, value)], NO_PEL, clock, wall, skip) ==
      Put(m, me, id, Stamped(Reading(clock, wall, skip + 1), value, NO_PEL))
  {
    assert [Change(id, value)][..0] == [] && PutAll(m, me, [], NO_PEL, clock, wall, skip) == m;
  }
}
