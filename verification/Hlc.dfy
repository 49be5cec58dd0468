/** The hybrid logical clock: stamps, their order, their encoding, and the local clock. */
module Hlc {
  import opened Prelude
  import opened ByteStrings

  const U32: nat := 0x1_0000_0000
  const I63: int := 0x8000_0000_0000_0000

  datatype Stamp = Stamp(wall: int, logical: nat)

  /** WallMS is an int64 and Logical a uint32. */
  predicate Fits(s: Stamp) { IsWall(s.wall) && s.logical < U32 }

  predicate IsWall(w: int) { -I63 <= w < I63 }

  /** The physical times a clock reads, in order. */
  type Times = nat -> int

  /** The first n physical times read fit an int64. */
  predicate AllWalls(wall: Times, n: nat) { forall i :: 0 <= i < n ==> IsWall(wall(i)) }

  function Compare(a: Stamp, b: Stamp): int {
    if a.wall < b.wall then -1
    else if a.wall > b.wall then 1
    else if a.logical < b.logical then -1
    else if a.logical > b.logical then 1
    else 0
  }

  predicate Before(a: Stamp, b: Stamp) { Compare(a, b) < 0 }

  // ---- big-endian integers ----

  function Pow256(n: nat): (r: nat)
    ensures r > 0
  {
    if n == 0 then 1 else 256 * Pow256(n - 1)
  }

  function BigEndian(v: nat, n: nat): (b: Bytes)
    ensures |b| == n
    decreases n
  {
    if n == 0 then [] else BigEndian(v / 256, n - 1) + [v % 256]
  }

  function Number(b: Bytes): nat {
    if b == [] then 0 else 256 * Number(b[..|b| - 1]) + b[|b| - 1]
  }

  predicate IsBytes(b: Bytes) { forall i :: 0 <= i < |b| ==> b[i] < 256 }

  lemma {:induction false} NumberOfBigEndian(v: nat, n: nat)
    requires v < Pow256(n)
    ensures Number(BigEndian(v, n)) == v && IsBytes(BigEndian(v, n))
    decreases n
  {
    if n > 0 {
      NumberOfBigEndian(v / 256, n - 1);
      assert BigEndian(v, n)[..n - 1] == BigEndian(v / 256, n - 1);
    }
  }

  lemma {:induction false} BigEndianOfNumber(b: Bytes)
    requires IsBytes(b)
    ensures Number(b) < Pow256(|b|) && BigEndian(Number(b), |b|) == b
    decreases |b|
  {
    if b != [] {
      var init, v := b[..|b| - 1], b[|b| - 1];
      BigEndianOfNumber(init);
      assert Number(b) / 256 == Number(init) && Number(b) % 256 == v;
      assert b == init + [v];
    }
  }

  /** Equal-length strings compare by their first parts, then by their second. */
  lemma {:induction false} LessConcat(a: Bytes, b: Bytes, c: Bytes, d: Bytes)
    requires |a| == |c|
    ensures Less(a + b, c + d) <==> Less(a, c) || (a == c && Less(b, d))
    decreases |a|
  {
    if a == [] {
      assert a + b == b && c + d == d;
    } else {
      assert (a + b)[1..] == a[1..] + b && (c + d)[1..] == c[1..] + d;
      LessConcat(a[1..], b, c[1..], d);
      assert a == [a[0]] + a[1..] && c == [c[0]] + c[1..];
    }
  }

  lemma {:induction false} BigEndianOrder(v: nat, w: nat, n: nat)
    requires v < Pow256(n) && w < Pow256(n)
    ensures Less(BigEndian(v, n), BigEndian(w, n)) <==> v < w
    ensures BigEndian(v, n) == BigEndian(w, n) <==> v == w
    decreases n
  {
    NumberOfBigEndian(v, n);
    NumberOfBigEndian(w, n);
    if n > 0 {
      BigEndianOrder(v / 256, w / 256, n - 1);
      LessConcat(BigEndian(v / 256, n - 1), [v % 256], BigEndian(w / 256, n - 1), [w % 256]);
      assert v == v / 256 * 256 + v % 256 && w == w / 256 * 256 + w % 256;
    }
  }

  // ---- stamps as bytes ----

  /** uint64(int64): two's complement. */
  function Unsigned(w: int): nat
    requires IsWall(w)
  {
    if w < 0 then w + U64 else w
  }

  function Signed(u: nat): int { if u >= I63 then u - U64 else u }

  function Encode(s: Stamp): Bytes
    requires Fits(s)
  {
    BigEndian(Unsigned(s.wall), 8) + BigEndian(s.logical, 4)
  }

  function Decode(b: Bytes): Option<Stamp> {
    if |b| != 12 then None else Some(Stamp(Signed(Number(b[..8])), Number(b[8..])))
  }

  lemma StampRoundTrip(s: Stamp)
    requires Fits(s)
    ensures Decode(Encode(s)) == Some(s) && IsBytes(Encode(s))
  {
    NumberOfBigEndian(Unsigned(s.wall), 8);
    NumberOfBigEndian(s.logical, 4);
    assert Encode(s)[..8] == BigEndian(Unsigned(s.wall), 8) && Encode(s)[8..] == BigEndian(s.logical, 4);
  }

  lemma BytesRoundTrip(b: Bytes)
    requires |b| == 12 && IsBytes(b)
    ensures Decode(b).Some? && Fits(Decode(b).value) && Encode(Decode(b).value) == b
  {
    BigEndianOfNumber(b[..8]);
    BigEndianOfNumber(b[8..]);
    assert Unsigned(Signed(Number(b[..8]))) == Number(b[..8]);
    assert b == b[..8] + b[8..];
  }

  /** The encoding's byte order is the stamp order exactly for wall clocks on the same side of the epoch. */
  lemma EncodingOrderIff(a: Stamp, b: Stamp)
    requires Fits(a) && Fits(b)
    ensures (Less(Encode(a), Encode(b)) <==> Before(a, b)) && (Less(Encode(b), Encode(a)) <==> Before(b, a))
      <==> (a.wall < 0 <==> b.wall < 0)
  {
    EncodedLess(a, b);
    EncodedLess(b, a);
  }

  lemma EncodedLess(a: Stamp, b: Stamp)
    requires Fits(a) && Fits(b)
    ensures Less(Encode(a), Encode(b)) <==>
      Unsigned(a.wall) < Unsigned(b.wall) || (a.wall == b.wall && a.logical < b.logical)
  {
    BigEndianOrder(Unsigned(a.wall), Unsigned(b.wall), 8);
    BigEndianOrder(a.logical, b.logical, 4);
    LessConcat(BigEndian(Unsigned(a.wall), 8), BigEndian(a.logical, 4),
               BigEndian(Unsigned(b.wall), 8), BigEndian(b.logical, 4));
  }

  /** A stamp from before 1970 sorts after one from after it. */
  lemma EncodingOrderFails()
    ensures Before(Stamp(-1, 0), Stamp(0, 0)) && Less(Encode(Stamp(0, 0)), Encode(Stamp(-1, 0)))
  {
    EncodedLess(Stamp(0, 0), Stamp(-1, 0));
  }

  // ---- the local clock ----

  /** One reading of the clock, the logical counter wrapping as a uint32 does. */
  function Tick(last: Stamp, pt: int): Stamp {
    if pt > last.wall then Stamp(pt, 0) else Stamp(last.wall, (last.logical + 1) % U32)
  }

  /** The counter is used up and physical time has not moved on. */
  predicate Exhausted(last: Stamp, pt: int) { pt <= last.wall && last.logical == U32 - 1 }

  lemma TickAdvancesIff(last: Stamp, pt: int)
    requires Fits(last)
    ensures Before(last, Tick(last, pt)) <==> !Exhausted(last, pt)
  {}

  /** The clock after k readings, given the physical times read. */
  function Reading(start: Stamp, wall: Times, k: nat): Stamp {
    if k == 0 then start else Tick(Reading(start, wall, k - 1), wall(k - 1))
  }

  predicate NeverExhausted(start: Stamp, wall: Times, n: nat) {
    forall k :: 0 <= k < n ==> !ExhaustedAt(start, wall, k)
  }

  predicate ExhaustedAt(start: Stamp, wall: Times, k: nat) { Exhausted(Reading(start, wall, k), wall(k)) }

  predicate Increasing(start: Stamp, wall: Times, n: nat) {
    forall j, k :: 0 <= j < k <= n ==> Before(Reading(start, wall, j), Reading(start, wall, k))
  }

  lemma {:induction false} ReadingFits(start: Stamp, wall: Times, n: nat, k: nat)
    requires Fits(start) && k <= n && AllWalls(wall, n)
    ensures Fits(Reading(start, wall, k))
  {
    if k > 0 { ReadingFits(start, wall, n, k - 1); }
  }

  /** A replica's n stamps strictly increase, whatever the wall clock does, exactly when the counter never runs
      out. */
  lemma StampsIncreaseIff(start: Stamp, wall: Times, n: nat)
    requires Fits(start) && AllWalls(wall, n)
    ensures Increasing(start, wall, n) <==> NeverExhausted(start, wall, n)
  {
    if NeverExhausted(start, wall, n) {
      forall j, k | 0 <= j < k <= n ensures Before(Reading(start, wall, j), Reading(start, wall, k)) {
        LaterReading(start, wall, n, j, k);
      }
    } else {
      var k :| 0 <= k < n && ExhaustedAt(start, wall, k);
      assert !Before(Reading(start, wall, k), Reading(start, wall, k + 1));
    }
  }

  lemma {:induction false} LaterReading(start: Stamp, wall: Times, n: nat, j: nat, k: nat)
    requires Fits(start) && AllWalls(wall, n) && NeverExhausted(start, wall, n) && j < k <= n
    ensures Before(Reading(start, wall, j), Reading(start, wall, k))
  {
    ReadingFits(start, wall, n, k - 1);
    assert !ExhaustedAt(start, wall, k - 1);
    TickAdvancesIff(Reading(start, wall, k - 1), wall(k - 1));
    if j < k - 1 { LaterReading(start, wall, n, j, k - 1); }
  }

  /** The clock keeps nothing on disk. After a restart its stamps follow one issued before exactly when the
      first wall time read is past that stamp's. */
  lemma RestartedClockIff(was: Stamp, wall: Times, n: nat)
    requires Fits(was) && was.wall > 0 && AllWalls(wall, n) && n > 0 && NeverExhausted(Stamp(0, 0), wall, n)
    ensures AllAfter(was, Stamp(0, 0), wall, n) <==> wall(0) > was.wall
  {
    var first := Reading(Stamp(0, 0), wall, 1);
    assert first == Tick(Reading(Stamp(0, 0), wall, 0), wall(0));
    forall k | 1 < k <= n ensures Before(first, Reading(Stamp(0, 0), wall, k)) {
      LaterReading(Stamp(0, 0), wall, n, 1, k);
    }
  }

  /** Every stamp read follows this one. */
  predicate AllAfter(was: Stamp, start: Stamp, wall: Times, n: nat) {
    forall k :: 1 <= k <= n ==> Before(was, Reading(start, wall, k))
  }

  /** A stamp's wall time is at least the physical time read for it. */
  lemma ReadingPastWall(start: Stamp, wall: Times, k: nat)
    requires k > 0
    ensures Reading(start, wall, k).wall >= wall(k - 1)
  {}

  class Clock {
    var last: Stamp

    constructor ()
      ensures last == Stamp(0, 0)
    {
      last := Stamp(0, 0);
    }

    method Now(pt: int) returns (s: Stamp)
      requires Fits(last) && IsWall(pt)
      modifies this
      ensures s == last && Fits(last) && last == Tick(old(last), pt)
      ensures Before(old(last), s) <==> !Exhausted(old(last), pt)
    {
      if pt > last.wall {
        last := Stamp(pt, 0);
      } else {
        last := last.(logical := (last.logical + 1) % U32);
      }
      return last;
    }

    /** A stamp issued after observing a remote one beats both it and the local history. */
    method Observe(remote: Stamp, pt: int)
      requires Fits(last) && Fits(remote) && IsWall(pt)
      modifies this
      ensures Fits(last)
      ensures Before(remote, last) && Before(old(last), last) <==>
        !Exhausted(if Before(old(last), remote) then remote else old(last), pt)
    {
      var max := last;
      if Compare(remote, max) > 0 { max := remote; }
      if pt > max.wall {
        last := Stamp(pt, 0);
      } else {
        last := Stamp(max.wall, (max.logical + 1) % U32);
      }
    }
  }
}
