/** Bitmaps kept as sparse 512-byte chunks, against the flat byte string they stand for. One writer,
    so writing a chunk's slot replaces it and a deleted slot removes it. */
module Bitmap {
  import opened Prelude
  import opened BitOps

  const CHUNK: nat := 512
  const MAX_BIT: nat := 0xffff_ffff

  type Chunks = map<nat, seq<byte>>

  predicate WellFormed(live: Chunks) {
    forall idx :: idx in live ==> 1 <= |live[idx]| <= CHUNK
  }

  /** Byte p of the string: chunks are trimmed, and absent ones read as zeros. */
  function ByteOf(live: Chunks, p: nat): byte { ByteIn(live, p / CHUNK, p % CHUNK) }

  function ByteIn(live: Chunks, idx: nat, at: nat): byte {
    if idx in live && at < |live[idx]| then live[idx][at] else 0
  }

  /** The last chunk fixes the length. */
  ghost predicate HasLength(live: Chunks, n: nat) {
    if live == map[] then n == 0
    else exists last :: last in live && n == last * CHUNK + |live[last]| && forall idx :: idx in live ==> idx <= last
  }

  /** d is the flat string the chunks stand for. */
  ghost predicate Flat(live: Chunks, d: seq<byte>) {
    HasLength(live, |d|) && forall p :: 0 <= p < |d| ==> d[p] == ByteOf(live, p)
  }

  /** There is only one such string, and beyond it everything is zero. */
  lemma FlatUnique(live: Chunks, d: seq<byte>, e: seq<byte>)
    requires WellFormed(live) && Flat(live, d) && Flat(live, e)
    ensures d == e
  {}

  lemma ZeroBeyond(live: Chunks, n: nat, p: nat)
    requires WellFormed(live) && HasLength(live, n) && p >= n
    ensures ByteOf(live, p) == 0
  {
    if live != map[] {
      var last :| last in live && n == last * CHUNK + |live[last]| && forall idx :: idx in live ==> idx <= last;
      assert p == p / CHUNK * CHUNK + p % CHUNK;
      assert p / CHUNK < last ==> p < last * CHUNK;
    }
  }

  // ---- bytes ----

  /** The index of the last chunk, found in whatever order the map yields them. */
  method LastChunk(live: Chunks) returns (last: nat)
    requires live != map[]
    ensures last in live && forall idx :: idx in live ==> idx <= last
  {
    last :| last in live;
    var left: set<nat> := live.Keys - {last};
    while left != {}
      invariant last in live && last !in left
      invariant forall idx :: idx in left ==> idx in live
      invariant forall idx :: idx in live && idx !in left ==> idx <= last
      decreases |left|
    {
      var idx :| idx in left;
      if idx > last { last := idx; }
      left := left - {idx};
    }
  }

  method CopyChunk(out: array<byte>, at: nat, v: seq<byte>)
    requires at + |v| <= out.Length
    modifies out
    ensures forall p :: 0 <= p < out.Length ==> out[p] == if at <= p < at + |v| then v[p - at] else old(out[p])
  {
    var i := 0;
    while i < |v|
      invariant 0 <= i <= |v|
      invariant forall p :: 0 <= p < out.Length ==> out[p] == if at <= p < at + i then v[p - at] else old(out[p])
    {
      out[at + i] := v[i];
      i := i + 1;
    }
  }

  /** bytes: chunks copied in any order into a zeroed buffer. */
  method Bytes(live: Chunks) returns (d: seq<byte>)
    requires WellFormed(live)
    ensures Flat(live, d)
  {
    if live == map[] { return []; }
    var last := LastChunk(live);
    var out := new byte[last * CHUNK + |live[last]|](i => 0);
    var left: set<nat> := live.Keys;
    while left != {}
      invariant forall idx :: idx in left ==> idx in live
      invariant forall p :: 0 <= p < out.Length ==> out[p] == if p / CHUNK in left then 0 else ByteOf(live, p)
      decreases |left|
    {
      var idx :| idx in left;
      assert idx * CHUNK + |live[idx]| <= out.Length by { if idx < last { assert (idx + 1) * CHUNK <= last * CHUNK; } }
      ghost var before := out[..];
      CopyChunk(out, idx * CHUNK, live[idx]);
      forall p | 0 <= p < out.Length
        ensures out[p] == if p / CHUNK in left - {idx} then 0 else ByteOf(live, p)
      {
        assert before[p] == if p / CHUNK in left then 0 else ByteOf(live, p);
      }
      left := left - {idx};
    }
    d := out[..];
  }

  // ---- whole-value write ----

  function Piece(data: seq<byte>, idx: nat): seq<byte>
    requires idx * CHUNK < |data|
  {
    data[idx * CHUNK .. if (idx + 1) * CHUNK < |data| then (idx + 1) * CHUNK else |data|]
  }

  predicate AllZero(b: seq<byte>) { forall i :: 0 <= i < |b| ==> b[i] == 0 }

  function ChunkCount(n: nat): nat { (n + CHUNK - 1) / CHUNK }

  /** The chunks below `upto` are data's: present with data's bytes, or absent and all zero. */
  ghost predicate Holds(live: Chunks, data: seq<byte>, upto: nat) {
    forall idx: nat :: idx < upto ==> HoldsChunk(live, data, idx)
  }

  ghost predicate HoldsChunk(live: Chunks, data: seq<byte>, idx: nat) {
    idx * CHUNK < |data| &&
    if idx in live then live[idx] == Piece(data, idx)
    else idx + 1 < ChunkCount(|data|) && AllZero(Piece(data, idx))
  }

  lemma HoldsIsFlat(live: Chunks, data: seq<byte>)
    requires WellFormed(live) && Holds(live, data, ChunkCount(|data|))
    requires forall idx :: idx in live ==> idx < ChunkCount(|data|)
    ensures Flat(live, data)
  {
    HoldsLength(live, data);
    forall p | 0 <= p < |data| ensures data[p] == ByteOf(live, p) { HoldsByte(live, data, p); }
  }

  lemma HoldsLength(live: Chunks, data: seq<byte>)
    requires Holds(live, data, ChunkCount(|data|))
    requires forall idx :: idx in live ==> idx < ChunkCount(|data|)
    ensures HasLength(live, |data|)
  {
    var n := ChunkCount(|data|);
    if data == [] {
      assert live == map[];
    } else {
      assert HoldsChunk(live, data, n - 1);
      assert |data| == (n - 1) * CHUNK + |live[n - 1]|;
    }
  }

  lemma HoldsByte(live: Chunks, data: seq<byte>, p: nat)
    requires Holds(live, data, ChunkCount(|data|)) && p < |data|
    ensures data[p] == ByteOf(live, p)
  {
    var idx, at := p / CHUNK, p % CHUNK;
    HoldsAt(live, data, idx, at);
  }

  lemma HoldsAt(live: Chunks, data: seq<byte>, idx: nat, at: nat)
    requires at < CHUNK && idx * CHUNK + at < |data| && HoldsChunk(live, data, idx)
    ensures data[idx * CHUNK + at] == ByteIn(live, idx, at)
  {
  }

  datatype Kind = Absent | IsBitmap | IsString | IsOther

  datatype Error = OutOfRange | WrongType

  function SetTo(b: byte, mask: byte, on: bool): byte { if on then b | mask else b & !mask }

  /** Zero-extends d to at least n bytes. */
  function Extended(d: seq<byte>, n: nat): seq<byte> {
    if |d| >= n then d else d + seq(n - |d|, i => 0)
  }

  /** Setting one bit of the zero-extended flat string. */
  function FlatSet(d: seq<byte>, offset: nat, on: bool): seq<byte> {
    var e := Extended(d, offset / 8 + 1);
    e[offset / 8 := SetTo(e[offset / 8], Mask(offset % 8), on)]
  }

  /** The bit just set reads back, and no other bit of the extended string changes. */
  lemma FlatSetBits(d: seq<byte>, offset: nat, on: bool, p: nat)
    ensures ExtBit(FlatSet(d, offset, on), p) == if p == offset then on else ExtBit(d, p)
  {
    var e := FlatSet(d, offset, on);
    if p / 8 == offset / 8 {
      var b := Extended(d, offset / 8 + 1)[offset / 8];
      SetToBits(b, offset % 8, on, p % 8);
      if p / 8 >= |d| { assert b == 0; }
    }
  }

  lemma SetToBits(b: byte, r: nat, on: bool, q: nat)
    requires r < 8 && q < 8
    ensures Bit(SetTo(b, Mask(r), on), q) == if q == r then on else Bit(b, q)
    ensures !Bit(0, q)
  {}

  // ---- one bit of one chunk ----

  /** The chunk SETBIT writes: grown to hold the byte, and the bit set. */
  function NewChunk(chunk: seq<byte>, at: nat, mask: byte, on: bool): seq<byte> {
    var e := Extended(chunk, at + 1);
    e[at := SetTo(e[at], mask, on)]
  }

  function ChunkOf(live: Chunks, idx: nat): seq<byte> { if idx in live then live[idx] else [] }

  /** Writing the grown chunk is setting the bit of the flat string. */
  lemma SetBitIsFlat(live: Chunks, d: seq<byte>, offset: nat, on: bool)
    requires WellFormed(live) && Flat(live, d)
    ensures
      var idx, at := offset / 8 / CHUNK, offset / 8 % CHUNK;
      var live' := live[idx := NewChunk(ChunkOf(live, idx), at, Mask(offset % 8), on)];
      WellFormed(live') && Flat(live', FlatSet(d, offset, on))
  {
    var b := offset / 8;
    var idx, at := b / CHUNK, b % CHUNK;
    var live' := live[idx := NewChunk(ChunkOf(live, idx), at, Mask(offset % 8), on)];
    SetBitLength(live, |d|, b, live');
    forall p | 0 <= p < |FlatSet(d, offset, on)| ensures FlatSet(d, offset, on)[p] == ByteOf(live', p) {
      SetBitByte(live, d, offset, on, p);
    }
  }

  lemma SetBitLength(live: Chunks, n: nat, b: nat, live': Chunks)
    requires WellFormed(live) && HasLength(live, n)
    requires live'.Keys == live.Keys + {b / CHUNK}
    requires forall idx :: idx in live && idx != b / CHUNK ==> live'[idx] == live[idx]
    requires |live'[b / CHUNK]| ==
      if |ChunkOf(live, b / CHUNK)| >= b % CHUNK + 1 then |ChunkOf(live, b / CHUNK)| else b % CHUNK + 1
    ensures HasLength(live', if n >= b + 1 then n else b + 1)
  {
    var idx, at := b / CHUNK, b % CHUNK;
    assert b == idx * CHUNK + at;
    assert idx in live';
    if live == map[] {
      assert forall k :: k in live' ==> k <= idx;
    } else {
      var last :| last in live && n == last * CHUNK + |live[last]| && forall k :: k in live ==> k <= last;
      if idx < last {
        assert (idx + 1) * CHUNK <= last * CHUNK;
        assert last in live' && live'[last] == live[last];
      } else if idx > last {
        assert (last + 1) * CHUNK <= idx * CHUNK;
      }
    }
  }

  lemma SetBitByte(live: Chunks, d: seq<byte>, offset: nat, on: bool, p: nat)
    requires WellFormed(live) && Flat(live, d) && p < |FlatSet(d, offset, on)|
    ensures
      var idx, at := offset / 8 / CHUNK, offset / 8 % CHUNK;
      FlatSet(d, offset, on)[p] ==
        ByteOf(live[idx := NewChunk(ChunkOf(live, idx), at, Mask(offset % 8), on)], p)
  {
    var b := offset / 8;
    ExtendedByte(live, d, p, b + 1);
    ByteInSet(live, b / CHUNK, b % CHUNK, Mask(offset % 8), on, p / CHUNK, p % CHUNK);
    assert b == b / CHUNK * CHUNK + b % CHUNK && p == p / CHUNK * CHUNK + p % CHUNK;
    assert b == p <==> b / CHUNK == p / CHUNK && b % CHUNK == p % CHUNK;
  }

  lemma ExtendedByte(live: Chunks, d: seq<byte>, p: nat, n: nat)
    requires WellFormed(live) && Flat(live, d) && p < |Extended(d, n)|
    ensures Extended(d, n)[p] == ByteOf(live, p)
  {
    if p >= |d| { ZeroBeyond(live, |d|, p); }
  }

  lemma ByteInSet(live: Chunks, idx: nat, at: nat, mask: byte, on: bool, idx': nat, at': nat)
    ensures ByteIn(live[idx := NewChunk(ChunkOf(live, idx), at, mask, on)], idx', at') ==
      if idx' == idx && at' == at then SetTo(ByteIn(live, idx, at), mask, on) else ByteIn(live, idx', at')
  {}

  /** Nothing to write when the chunk already holds the byte and the bit has the wanted value. */
  lemma UnchangedIsFlat(live: Chunks, d: seq<byte>, offset: nat, on: bool)
    requires WellFormed(live) && Flat(live, d)
    requires offset / 8 % CHUNK < |ChunkOf(live, offset / 8 / CHUNK)|
    requires Bit(ByteOf(live, offset / 8), offset % 8) == on
    ensures FlatSet(d, offset, on) == d
  {
    var b := offset / 8;
    assert b == b / CHUNK * CHUNK + b % CHUNK;
    var last :| last in live && |d| == last * CHUNK + |live[last]| && forall k :: k in live ==> k <= last;
    if b / CHUNK < last { assert (b / CHUNK + 1) * CHUNK <= last * CHUNK; }
    SetSame(d[b], offset % 8, on);
  }

  lemma SetSame(b: byte, r: nat, on: bool)
    requires Bit(b, r) == on
    ensures SetTo(b, Mask(r), on) == b
  {}

  lemma FlatBit(live: Chunks, d: seq<byte>, offset: nat)
    requires WellFormed(live) && Flat(live, d)
    ensures Bit(ByteOf(live, offset / 8), offset % 8) == ExtBit(d, offset)
  {
    if offset / 8 >= |d| {
      ZeroBeyond(live, |d|, offset / 8);
      SetToBits(0, 0, true, offset % 8);
    }
  }

  // ---- the key ----

  /** A string key as the bit commands see it: absent, a bitmap, a plain string, or something whose
      bytes can be read but not set (a counter or a HyperLogLog). */
  class BitKey {
    var kind: Kind
    var live: Chunks
    var text: seq<byte>

    ghost predicate Valid()
      reads this
    {
      WellFormed(live) && (kind != IsBitmap ==> live == map[]) && (kind == Absent ==> text == [])
    }

    /** The string value of the key. */
    ghost predicate Is(d: seq<byte>)
      reads this
    {
      if kind == IsBitmap then Flat(live, d) else d == text
    }

    constructor ()
      ensures Valid() && kind == Absent && Is([])
    {
      kind, live, text := Absent, map[], [];
    }

    /** bitmapWrite: present slots for non-zero chunks and the last one, deleted slots for the rest. */
    method Write(data: seq<byte>)
      requires WellFormed(live)
      modifies this
      ensures Valid() && kind == IsBitmap && Is(data)
    {
      var found := live.Keys;
      var keep: set<nat> := {};
      var n := ChunkCount(|data|);
      var idx := 0;
      while idx < n
        invariant 0 <= idx <= n && kind == old(kind)
        invariant WellFormed(live) && live.Keys == found + keep
        invariant forall k :: k in keep ==> k < idx && k in live && k * CHUNK < |data| && live[k] == Piece(data, k)
        invariant forall k: nat :: k < idx && k !in keep ==>
          k * CHUNK < |data| && k + 1 < n && AllZero(Piece(data, k))
      {
        var chunk := Piece(data, idx);
        if idx < n - 1 && AllZero(chunk) {
        } else {
          keep := keep + {idx};
          live := live[idx := chunk];
        }
        idx := idx + 1;
      }
      DropExcept(found, keep);
      kind, text := IsBitmap, [];
      HoldsIsFlat(live, data);
    }

    method DropExcept(found: set<nat>, keep: set<nat>)
      requires live.Keys == found + keep
      modifies this`live
      ensures live.Keys == keep && forall k :: k in keep ==> k in old(live) && live[k] == old(live)[k]
    {
      var left := found - keep;
      while left != {}
        invariant left <= found - keep && live.Keys == left + keep
        invariant forall k :: k in keep ==> k in old(live) && live[k] == old(live)[k]
        decreases |left|
      {
        var k: nat :| k in left;
        live := live - {k};
        left := left - {k};
      }
    }

    method SetBitOfString(offset: nat, on: bool) returns (was: bool)
      requires Valid() && kind == IsString
      modifies this
      ensures Valid() && kind == IsBitmap && was == ExtBit(old(text), offset) && Is(FlatSet(old(text), offset, on))
    {
      FoundBit(this, offset, text);
      var b, mask := offset / 8, Mask(offset % 8);
      var data := text;
      was := false;
      if b < |data| { was := data[b] & mask != 0; } else { data := data + seq(b + 1 - |data|, i => 0); }
      assert data == Extended(text, b + 1);
      data := data[b := SetTo(data[b], mask, on)];
      Write(data);
    }

    method SetBitOfChunk(offset: nat, on: bool, ghost d: seq<byte>) returns (was: bool)
      requires Valid() && (kind == IsBitmap || kind == Absent) && Flat(live, d)
      modifies this`live, this`kind
      ensures Valid() && kind == IsBitmap
      ensures was == Bit(ByteOf(old(live), offset / 8), offset % 8) && Is(FlatSet(d, offset, on))
    {
      var b, mask := offset / 8, Mask(offset % 8);
      var idx, at := b / CHUNK, b % CHUNK;
      var chunk := ChunkOf(live, idx);
      SetToBits(0, 0, true, offset % 8);
      was := at < |chunk| && chunk[at] & mask != 0;
      if was == on && kind == IsBitmap && at < |chunk| {
        UnchangedIsFlat(live, d, offset, on);
        return;
      }
      SetBitIsFlat(live, d, offset, on);
      live := live[idx := NewChunk(chunk, at, mask, on)];
      kind := IsBitmap;
    }

    /** SETBIT returns the bit's previous value and sets it, exactly as on the zero-extended string. */
    method SetBit(offset: nat, on: bool, ghost d: seq<byte>) returns (r: Result<bool, Error>)
      requires Valid() && Is(d)
      modifies this
      ensures Valid()
      ensures r.Err? <==> offset > MAX_BIT || old(kind) == IsOther
      ensures r.Err? ==> kind == old(kind) && Is(d)
      ensures r.Ok? ==> r.value == ExtBit(d, offset) && kind == IsBitmap && Is(FlatSet(d, offset, on))
    {
      if offset > MAX_BIT { return Err(OutOfRange); }
      if kind == IsOther { return Err(WrongType); }
      var was: bool;
      if kind == IsString {
        was := SetBitOfString(offset, on);
      } else {
        FlatBit(live, d, offset);
        was := SetBitOfChunk(offset, on, d);
      }
      return Ok(was);
    }

    method GetBit(offset: nat, ghost d: seq<byte>) returns (r: Result<bool, Error>)
      requires Valid() && Is(d)
      ensures r == if offset > MAX_BIT then Err(OutOfRange) else Ok(ExtBit(d, offset))
    {
      if offset > MAX_BIT { return Err(OutOfRange); }
      FoundBit(this, offset, d);
      var b := offset / 8;
      var v: byte := 0;
      if kind == IsBitmap {
        var chunk := ChunkOf(live, b / CHUNK);
        if b % CHUNK < |chunk| { v := chunk[b % CHUNK]; }
      } else if b < |text| {
        v := text[b];
      }
      return Ok(v & Mask(offset % 8) != 0);
    }
  }

  /** The byte a read finds, and its bit, are those of the key's string. */
  lemma FoundBit(key: BitKey, offset: nat, d: seq<byte>)
    requires key.Valid() && key.Is(d)
    ensures ExtBit(d, offset) ==
      Bit(if key.kind == IsBitmap then ByteOf(key.live, offset / 8)
          else if offset / 8 < |key.text| then key.text[offset / 8] else 0, offset % 8)
  {
    if key.kind == IsBitmap { FlatBit(key.live, d, offset); } else { SetToBits(0, 0, true, offset % 8); }
  }
}
