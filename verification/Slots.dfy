/** Last-writer-wins registers: one slot per replica, read by the greatest (stamp, replica). */
module Slots {
  import opened Prelude
  import opened ByteStrings
  import opened Hlc

  const TAG_PRESENT: nat := 0
  const TAG_DELETED: nat := 1

  datatype Slot<V> = Slot(stamp: Stamp, tag: nat, value: V)

  /** One register's slots, by replica. */
  type Cands<V> = map<Bytes, Slot<V>>

  predicate IsSlot(s: Slot<Bytes>) { Fits(s.stamp) && s.tag < 256 && IsBytes(s.value) }

  function EncodeSlot(s: Slot<Bytes>): Bytes
    requires Fits(s.stamp)
  {
    Encode(s.stamp) + [s.tag] + s.value
  }

  function DecodeSlot(b: Bytes): Option<Slot<Bytes>> {
    if |b| < 13 then None else
      match Decode(b[..12])
      case None => None
      case Some(st) => Some(Slot(st, b[12], b[13..]))
  }

  lemma SlotRoundTrip(s: Slot<Bytes>)
    requires IsSlot(s)
    ensures DecodeSlot(EncodeSlot(s)) == Some(s) && IsBytes(EncodeSlot(s))
  {
    var b := EncodeSlot(s);
    StampRoundTrip(s.stamp);
    assert b[..12] == Encode(s.stamp) && b[13..] == s.value;
  }

  /** Every envelope of at least 13 bytes decodes, and to a slot that encodes back to it. */
  lemma EnvelopeRoundTrip(b: Bytes)
    requires IsBytes(b)
    ensures DecodeSlot(b).Some? <==> |b| >= 13
    ensures |b| >= 13 ==> IsSlot(DecodeSlot(b).value) && EncodeSlot(DecodeSlot(b).value) == b
  {
    if |b| >= 13 {
      BytesRoundTrip(b[..12]);
      assert b == b[..12] + [b[12]] + b[13..];
    }
  }

  // ---- the read rule ----

  /** Write (s, r) is older than (t, q). */
  predicate Older(s: Stamp, r: Bytes, t: Stamp, q: Bytes) {
    Before(s, t) || (s == t && Less(r, q))
  }

  lemma OlderTotal(s: Stamp, r: Bytes, t: Stamp, q: Bytes)
    ensures Older(s, r, t, q) || (s == t && r == q) || Older(t, q, s, r)
    ensures !(Older(s, r, t, q) && Older(t, q, s, r))
  {
    LessTotal(r, q);
  }

  lemma OlderTrans(s: Stamp, r: Bytes, t: Stamp, q: Bytes, u: Stamp, p: Bytes)
    requires Older(s, r, t, q) && Older(t, q, u, p)
    ensures Older(s, r, u, p)
  {
    if s == t && t == u { LessTrans(r, q, p); }
  }

  ghost predicate Wins<V>(cands: Cands<V>, w: Bytes) {
    w in cands && forall r :: r in cands && r != w ==> Older(cands[r].stamp, r, cands[w].stamp, w)
  }

  /** v is what a read of these candidates gives. */
  ghost predicate Reads<V>(cands: Cands<V>, v: Option<V>) {
    if cands == map[] then v == None
    else exists w :: Wins(cands, w) && v == Shown(cands[w])
  }

  function Shown<V>(s: Slot<V>): Option<V> { if s.tag == TAG_DELETED then None else Some(s.value) }

  lemma WinnerUnique<V>(cands: Cands<V>, w: Bytes, u: Bytes)
    requires Wins(cands, w) && Wins(cands, u)
    ensures w == u
  {
    OlderTotal(cands[w].stamp, w, cands[u].stamp, u);
  }

  lemma {:induction false} WinnerExists<V>(cands: Cands<V>) returns (w: Bytes)
    requires cands != map[]
    ensures Wins(cands, w)
    decreases |cands|
  {
    var r :| r in cands;
    var rest := cands - {r};
    w := r;
    if rest == map[] {
      assert forall q :: q in cands && q != r ==> q in rest;
    } else {
      assert rest.Keys == cands.Keys - {r};
      w := WinnerExists(rest);
      OlderTotal(cands[w].stamp, w, cands[r].stamp, r);
      if Older(cands[w].stamp, w, cands[r].stamp, r) {
        NewWinner(cands, w, r);
        w := r;
      } else {
        OldWinner(cands, w, r);
      }
    }
  }

  lemma OldWinner<V>(cands: Cands<V>, w: Bytes, r: Bytes)
    requires r in cands && Wins(cands - {r}, w) && Older(cands[r].stamp, r, cands[w].stamp, w)
    ensures Wins(cands, w)
  {
    assert forall q :: q in cands && q != r ==> q in cands - {r};
  }

  /** The slot that beats the winner of the others beats them all. */
  lemma NewWinner<V>(cands: Cands<V>, w: Bytes, r: Bytes)
    requires r in cands && Wins(cands - {r}, w) && Older(cands[w].stamp, w, cands[r].stamp, r)
    ensures Wins(cands, r)
  {
    forall q | q in cands && q != r ensures Older(cands[q].stamp, q, cands[r].stamp, r) {
      if q != w {
        assert q in cands - {r};
        OlderTrans(cands[q].stamp, q, cands[w].stamp, w, cands[r].stamp, r);
      }
    }
  }

  /** What the register reads as. */
  ghost function Value<V>(cands: Cands<V>): (v: Option<V>)
    ensures Reads(cands, v)
  {
    if cands == map[] then None else
      assert exists w :: Wins(cands, w) by { var w := WinnerExists(cands); }
      var w :| Wins(cands, w); Shown(cands[w])
  }

  lemma ReadsValue<V>(cands: Cands<V>, v: Option<V>)
    requires Reads(cands, v)
    ensures v == Value(cands)
  {
    if cands != map[] {
      var w :| Wins(cands, w) && v == Shown(cands[w]);
      ValueOf(cands, w);
    }
  }

  lemma ValueOf<V>(cands: Cands<V>, w: Bytes)
    requires Wins(cands, w)
    ensures Value(cands) == Shown(cands[w])
  {
    var u :| Wins(cands, u) && Value(cands) == Shown(cands[u]);
    WinnerUnique(cands, w, u);
  }

  /** A write with this stamp beats every other replica's slot. */
  ghost predicate Beats<V>(cands: Cands<V>, r: Bytes, st: Stamp) {
    forall q :: q in cands && q != r ==> Older(cands[q].stamp, q, st, r)
  }

  /** A replica's write shows exactly when its stamp beats every other replica's slot; when it does not, the
      register reads as if the replica had written nothing. */
  lemma WriteShowsIff<V>(cands: Cands<V>, r: Bytes, s: Slot<V>)
    ensures Wins(cands[r := s], r) <==> Beats(cands, r, s.stamp)
    ensures Value(cands[r := s]) == if Beats(cands, r, s.stamp) then Shown(s) else Value(cands - {r})
  {
    var after := cands[r := s];
    if Beats(cands, r, s.stamp) {
      ValueOf(after, r);
    } else {
      var q :| q in cands && q != r && !Older(cands[q].stamp, q, s.stamp, r);
      assert q in after && q in cands - {r};
      var w := WinnerExists(cands - {r});
      OlderTotal(s.stamp, r, cands[q].stamp, q);
      if q != w { OlderTrans(s.stamp, r, cands[q].stamp, q, cands[w].stamp, w); }
      assert after - {r} == cands - {r};
      OldWinner(after, w, r);
      ValueOf(after, w);
      ValueOf(cands - {r}, w);
    }
  }

  /** winner: whatever order the map is walked in, the slot found is the one all others are older than. */
  method Winner<V>(cands: Cands<V>) returns (best: Option<Bytes>)
    ensures best.None? <==> cands == map[]
    ensures best.Some? ==> Wins(cands, best.value)
  {
    best := None;
    var left: set<Bytes> := cands.Keys;
    while left != {}
      invariant forall r :: r in left ==> r in cands
      invariant best.None? ==> left == cands.Keys
      invariant best.Some? ==> best.value in cands && best.value !in left
      invariant best.Some? ==> forall r :: r in cands && r !in left && r != best.value ==>
        Older(cands[r].stamp, r, cands[best.value].stamp, best.value)
      decreases |left|
    {
      var r: Bytes :| r in left;
      if best.None? {
        best := Some(r);
      } else {
        var q := best.value;
        var c := Compare(cands[q].stamp, cands[r].stamp);
        if c == -1 || (c == 0 && Less(q, r)) { best := Some(r); }
        Kept(cands, left, q, r, best.value);
      }
      left := left - {r};
    }
  }

  /** The newer of the champion q and the challenger r is newer than all the others seen. */
  lemma Kept<V>(cands: Cands<V>, left: set<Bytes>, q: Bytes, r: Bytes, q': Bytes)
    requires q in cands && r in cands && r in left && q !in left
    requires forall k :: k in cands && k !in left && k != q ==> Older(cands[k].stamp, k, cands[q].stamp, q)
    requires
      var c := Compare(cands[q].stamp, cands[r].stamp);
      q' == if c == -1 || (c == 0 && Less(q, r)) then r else q
    ensures forall k :: k in cands && (k !in left || k == r) && k != q' ==>
      Older(cands[k].stamp, k, cands[q'].stamp, q')
  {
    var b, s := cands[q].stamp, cands[r].stamp;
    OlderTotal(b, q, s, r);
    if q' == r {
      forall k | k in cands && k !in left && k != q ensures Older(cands[k].stamp, k, s, r) {
        OlderTrans(cands[k].stamp, k, b, q, s, r);
      }
    }
  }

  method LiveValue<V>(cands: Cands<V>) returns (v: Option<V>)
    ensures v == Value(cands)
  {
    var best := Winner(cands);
    if best.Some? { ValueOf(cands, best.value); }
    if best.None? || cands[best.value].tag == TAG_DELETED { return None; }
    return Some(cands[best.value].value);
  }

  // ---- convergence ----

  /** A replica's write: its place in that replica's own sequence, and the slot written. */
  datatype Write = Write(replica: Bytes, height: nat, slot: Slot<Bytes>)

  /** What one replica writes to a register over its life: the physical times its clock reads, and the
      tag and value of each write. */
  datatype History = History(start: Stamp, wall: Times, tags: seq<nat>, values: seq<Bytes>)

  ghost predicate IsHistory(h: History) {
    |h.tags| == |h.values| && Fits(h.start) && AllWalls(h.wall, |h.tags|) && NeverExhausted(h.start, h.wall, |h.tags|)
  }

  /** The write is one of those the histories issue, stamped by the clock's reading. */
  ghost predicate Issued(w: Write, hs: map<Bytes, History>) {
    w.replica in hs && IsHistory(hs[w.replica]) &&
    var h := hs[w.replica];
    w.height < |h.tags| &&
    w.slot == Slot(Reading(h.start, h.wall, w.height + 1), h.tags[w.height], h.values[w.height])
  }

  /** The datastore keeps a replica's newest write, however late or often each arrives. */
  function Receive(store: map<Bytes, Write>, w: Write): map<Bytes, Write> {
    if w.replica in store && store[w.replica].height >= w.height then store else store[w.replica := w]
  }

  function Received(ws: seq<Write>): map<Bytes, Write> {
    if ws == [] then map[] else Receive(Received(ws[..|ws| - 1]), ws[|ws| - 1])
  }

  function Candidates(store: map<Bytes, Write>): Cands<Bytes> { map r | r in store :: store[r].slot }

  /** The store holds, for each replica heard from, a received write no lower than any received. */
  lemma {:induction false} ReceivedNewest(ws: seq<Write>)
    ensures forall r :: r in Received(ws) ==> Received(ws)[r] in ws && Received(ws)[r].replica == r
    ensures forall w :: w in ws ==> w.replica in Received(ws) && w.height <= Received(ws)[w.replica].height
  {
    if ws != [] {
      ReceivedNewest(ws[..|ws| - 1]);
      assert ws == ws[..|ws| - 1] + [ws[|ws| - 1]];
    }
  }

  /** w is the write greatest by (wall, logical, replica) among those received. */
  ghost predicate Greatest(ws: seq<Write>, w: Write) {
    w in ws && forall u :: u in ws && u != w ==> Older(u.slot.stamp, u.replica, w.slot.stamp, w.replica)
  }

  /** Within one replica, a higher write carries a later stamp. */
  lemma HigherIsNewer(u: Write, w: Write, hs: map<Bytes, History>)
    requires Issued(u, hs) && Issued(w, hs) && u.replica == w.replica && u.height <= w.height
    ensures u == w || Before(u.slot.stamp, w.slot.stamp)
  {
    var h := hs[u.replica];
    if u.height < w.height { LaterReading(h.start, h.wall, |h.tags|, u.height + 1, w.height + 1); }
  }

  lemma WinnerIsGreatest(ws: seq<Write>, hs: map<Bytes, History>, r: Bytes)
    requires forall w :: w in ws ==> Issued(w, hs)
    requires Wins(Candidates(Received(ws)), r)
    ensures Greatest(ws, Received(ws)[r])
  {
    var store := Received(ws);
    var w := store[r];
    ReceivedNewest(ws);
    forall u | u in ws && u != w ensures Older(u.slot.stamp, u.replica, w.slot.stamp, w.replica) {
      var top := store[u.replica];
      HigherIsNewer(u, top, hs);
      if u.replica != r {
        assert u.replica in Candidates(store);
        if u != top { OlderTrans(u.slot.stamp, u.replica, top.slot.stamp, top.replica, w.slot.stamp, w.replica); }
      }
    }
  }

  /** A read shows the greatest write received, or nothing if that write is a delete. */
  lemma ReadsGreatest(ws: seq<Write>, hs: map<Bytes, History>, v: Option<Bytes>) returns (w: Write)
    requires forall w :: w in ws ==> Issued(w, hs)
    requires ws != [] && Reads(Candidates(Received(ws)), v)
    ensures Greatest(ws, w) && v == Shown(w.slot)
  {
    var cands := Candidates(Received(ws));
    ReceivedNewest(ws);
    assert ws[0].replica in cands;
    var r :| Wins(cands, r) && v == Shown(cands[r]);
    WinnerIsGreatest(ws, hs, r);
    w := Received(ws)[r];
  }

  /** A replica issues one write at each place in its sequence. */
  ghost predicate OnePerHeight(ws: seq<Write>) {
    forall u, w :: u in ws && w in ws && u.replica == w.replica && u.height == w.height ==> u == w
  }

  /** Two replicas that have received the same writes, in any order and any number of times each, hold the same
      slots and so read the same value, whatever the clocks did. */
  lemma Convergence(ws: seq<Write>, us: seq<Write>)
    requires OnePerHeight(ws) && forall w :: w in ws <==> w in us
    ensures Received(ws) == Received(us) && Value(Candidates(Received(ws))) == Value(Candidates(Received(us)))
  {
    var a, b := Received(ws), Received(us);
    ReceivedNewest(ws);
    ReceivedNewest(us);
    forall r ensures r in a <==> r in b {
      if r in a { assert a[r] in us; }
      if r in b { assert b[r] in ws; }
    }
    forall r | r in a ensures a[r] == b[r] { assert a[r] in us && b[r] in ws; }
  }
}
