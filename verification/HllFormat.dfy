/** The Redis string forms of a HyperLogLog sketch: dense (6-bit packed) and sparse (run-length
    opcodes). */
module HllFormat {
  import opened Prelude
  import opened Hll

  const PACKED: nat := 12288
  const SPARSE_MAX_BYTES: nat := 3000
  const SPARSE_VAL_MAX: byte := 32

  predicate IsRegisters(h: seq<byte>) {
    |h| == M && forall i :: 0 <= i < M ==> h[i] <= 51
  }

  // ---- bytes and numbers ----

  datatype Bits = Bits(b0: bool, b1: bool, b2: bool, b3: bool, b4: bool, b5: bool, b6: bool, b7: bool)

  function Without(n: nat, k: nat): nat { if n >= k then n - k else n }

  function BitsOf(n: nat): Bits {
    var n7 := Without(n, 128); var n6 := Without(n7, 64); var n5 := Without(n6, 32); var n4 := Without(n5, 16);
    var n3 := Without(n4, 8); var n2 := Without(n3, 4); var n1 := Without(n2, 2);
    Bits(n1 >= 1, n2 >= 2, n3 >= 4, n4 >= 8, n5 >= 16, n6 >= 32, n7 >= 64, n >= 128)
  }

  function FromBits(x: Bits): byte {
    (if x.b0 then 1 else 0) | (if x.b1 then 2 else 0) | (if x.b2 then 4 else 0) | (if x.b3 then 8 else 0) |
    (if x.b4 then 16 else 0) | (if x.b5 then 32 else 0) | (if x.b6 then 64 else 0) | (if x.b7 then 128 else 0)
  }

  /** byte(n), for an n that fits */
  function ToByte(n: nat): byte
    requires n < 256
  {
    FromBits(BitsOf(n))
  }

  predicate Has(b: byte, mask: byte) { b & mask != 0 }

  function Low(x: Bits): nat { One(x.b0) + 2 * One(x.b1) + 4 * One(x.b2) + 8 * One(x.b3) }
  function High(x: Bits): nat { One(x.b4) + 2 * One(x.b5) + 4 * One(x.b6) + 8 * One(x.b7) }

  /** int(b) */
  function ToNat(b: byte): nat {
    var x := Bits(Has(b, 1), Has(b, 2), Has(b, 4), Has(b, 8), Has(b, 16), Has(b, 32), Has(b, 64), Has(b, 128));
    Low(x) + 16 * High(x)
  }

  lemma BitsBack(x: Bits)
    ensures ToNat(FromBits(x)) == Low(x) + 16 * High(x)
  {
    var b := FromBits(x);
    assert Has(b, 1) == x.b0 && Has(b, 2) == x.b1 && Has(b, 4) == x.b2 && Has(b, 8) == x.b3;
    assert Has(b, 16) == x.b4 && Has(b, 32) == x.b5 && Has(b, 64) == x.b6 && Has(b, 128) == x.b7;
  }

  lemma BitsSum(n: nat)
    requires n < 256
    ensures Low(BitsOf(n)) + 16 * High(BitsOf(n)) == n
  {}

  lemma ByteRoundTrip(n: nat)
    requires n < 256
    ensures ToNat(ToByte(n)) == n
  {
    BitsSum(n);
    NatBack(BitsOf(n), n);
  }

  lemma NatBack(x: Bits, n: nat)
    requires Low(x) + 16 * High(x) == n
    ensures ToNat(FromBits(x)) == n
  {
    BitsBack(x);
  }

  lemma SmallByte(n: nat)
    requires n < 64
    ensures ToByte(n) & 0xc0 == 0 && ToByte(n) & 0x3f == ToByte(n)
    ensures n < 4 ==> ToByte(n) & 0xfc == 0
  {}

  lemma ToByteBound(n: nat)
    requires n <= 51
    ensures ToByte(n) <= 51
  {
    ByteRoundTrip(n);
  }

  // ---- dense form: four 6-bit registers in three bytes ----

  function ByteIdx(i: nat): nat { i * 6 / 8 }
  function Fb(i: nat): nat { i * 6 % 8 }

  /** Byte shifts by the even amounts that occur. */
  function Shl(v: byte, n: nat): byte {
    if n == 0 then v else if n == 2 then v << 2 else if n == 4 then v << 4 else if n == 6 then v << 6 else 0
  }

  function Shr(v: byte, n: nat): byte {
    if n == 0 then v else if n == 2 then v >> 2 else if n == 4 then v >> 4 else if n == 6 then v >> 6 else 0
  }

  function Header(encoding: byte): seq<byte> {
    [72, 89, 76, 76, encoding, 0, 0, 0, 0, 0, 0, 0, 0, 0, 0, 128]
  }

  /** Register i of h, the registers from n on counting as zero. */
  function At(h: seq<byte>, n: nat, i: nat): byte { if i < n && i < |h| then h[i] else 0 }

  /** Byte j of the packing of the first n registers of h. */
  function PackedByte(h: seq<byte>, n: nat, j: nat): byte {
    var q := j / 3 * 4;
    if j % 3 == 0 then At(h, n, q) | (At(h, n, q + 1) << 6)
    else if j % 3 == 1 then (At(h, n, q + 1) >> 2) | (At(h, n, q + 2) << 4)
    else (At(h, n, q + 2) >> 4) | (At(h, n, q + 3) << 2)
  }

  lemma Position(q: nat, t: nat)
    requires t < 4
    ensures ByteIdx(4 * q + t) == 3 * q + (if t < 2 then 0 else t - 1)
    ensures Fb(4 * q + t) == if t == 0 then 0 else 8 - 2 * t
  {}

  // What one more register changes: its low byte, its high byte if it straddles, nothing else.

  predicate Touches(i: nat, j: nat) { j == ByteIdx(i) || (Fb(i) > 2 && j == ByteIdx(i) + 1) }

  lemma Elsewhere(h: seq<byte>, i: nat, j: nat)
    requires |h| == M && i < M && j < PACKED && !Touches(i, j)
    ensures PackedByte(h, i + 1, j) == PackedByte(h, i, j)
  {}

  lemma NothingToPlace(h: seq<byte>, i: nat, j: nat)
    requires |h| == M && i < M && j < PACKED && h[i] == 0
    ensures PackedByte(h, i + 1, j) == PackedByte(h, i, j)
  {}

  lemma LowByte(h: seq<byte>, i: nat)
    requires |h| == M && i < M
    ensures ByteIdx(i) < PACKED
    ensures PackedByte(h, i + 1, ByteIdx(i)) == PackedByte(h, i, ByteIdx(i)) | Shl(h[i], Fb(i))
  {
    Position(i / 4, i % 4);
  }

  lemma HighByte(h: seq<byte>, i: nat)
    requires |h| == M && i < M && Fb(i) > 2
    ensures ByteIdx(i) + 1 < PACKED
    ensures PackedByte(h, i + 1, ByteIdx(i) + 1) == PackedByte(h, i, ByteIdx(i) + 1) | Shr(h[i], 8 - Fb(i))
  {
    Position(i / 4, i % 4);
  }

  /** The whole packing of the first n registers. */
  function Buffer(h: seq<byte>, n: nat): seq<byte> {
    seq(PACKED, j requires 0 <= j < PACKED => PackedByte(h, n, j))
  }

  function Packed(h: seq<byte>): seq<byte> { Buffer(h, M) }

  lemma BufferStep(h: seq<byte>, i: nat)
    requires |h| == M && i < M
    ensures
      var g, g', b, fb := Buffer(h, i), Buffer(h, i + 1), ByteIdx(i), Fb(i);
      && b < PACKED && (fb > 2 ==> b + 1 < PACKED)
      && g'[b] == g[b] | Shl(h[i], fb) && (fb > 2 ==> g'[b + 1] == g[b + 1] | Shr(h[i], 8 - fb))
      && (forall j :: 0 <= j < PACKED && !Touches(i, j) ==> g'[j] == g[j])
  {
    LowByte(h, i);
    if Fb(i) > 2 { HighByte(h, i); }
    forall j | 0 <= j < PACKED && !Touches(i, j) ensures PackedByte(h, i + 1, j) == PackedByte(h, i, j) {
      Elsewhere(h, i, j);
    }
  }

  lemma BufferSame(h: seq<byte>, i: nat)
    requires |h| == M && i < M && h[i] == 0
    ensures Buffer(h, i + 1) == Buffer(h, i)
  {
    forall j | 0 <= j < PACKED ensures PackedByte(h, i + 1, j) == PackedByte(h, i, j) { NothingToPlace(h, i, j); }
  }

  /** encodeRedis: or-ing each register into one or two bytes of a zeroed buffer. */
  method EncodeRedis(h: seq<byte>) returns (out: seq<byte>)
    requires |h| == M
    ensures out == Header(0) + Packed(h)
  {
    var regs := new byte[PACKED](j => 0);
    var i := 0;
    assert regs[..] == Buffer(h, 0);
    while i < M
      invariant 0 <= i <= M
      invariant regs[..] == Buffer(h, i)
    {
      PlaceNext(regs, h, i);
      i := i + 1;
    }
    out := Header(0) + regs[..];
  }

  method PlaceNext(regs: array<byte>, h: seq<byte>, i: nat)
    requires |h| == M && i < M && regs[..] == Buffer(h, i)
    modifies regs
    ensures regs[..] == Buffer(h, i + 1)
  {
    if h[i] == 0 {
      BufferSame(h, i);
    } else {
      BufferStep(h, i);
      ghost var g := regs[..];
      assert forall j :: 0 <= j < PACKED ==> g[j] == regs[j];
      Place(regs, h[i], i, Buffer(h, i + 1));
    }
  }

  method Place(regs: array<byte>, v: byte, i: nat, ghost g': seq<byte>)
    requires regs.Length == |g'| && ByteIdx(i) < |g'| && (Fb(i) > 2 ==> ByteIdx(i) + 1 < |g'|)
    requires g'[ByteIdx(i)] == regs[ByteIdx(i)] | Shl(v, Fb(i))
    requires Fb(i) > 2 ==> g'[ByteIdx(i) + 1] == regs[ByteIdx(i) + 1] | Shr(v, 8 - Fb(i))
    requires forall j :: 0 <= j < |g'| && !Touches(i, j) ==> g'[j] == regs[j]
    modifies regs
    ensures regs[..] == g'
  {
    var b, fb := ByteIdx(i), Fb(i);
    regs[b] := regs[b] | Shl(v, fb);
    if fb > 2 {  // the value straddles into the next byte
      regs[b + 1] := regs[b + 1] | Shr(v, 8 - fb);
    }
  }

  /** The register i that decodeRedis reads from a packed body. */
  function Unpacked(body: seq<byte>, i: nat): byte
    requires ByteIdx(i) < |body|
  {
    var b, fb := ByteIdx(i), Fb(i);
    var v := Shr(body[b], fb);
    (if b + 1 < |body| then v | Shl(body[b + 1], 8 - fb) else v) & 63
  }

  /** Each lane of a packed group gives its register back. */
  lemma Lanes(h0: byte, h1: byte, h2: byte, h3: byte, next: byte)
    requires h0 <= 51 && h1 <= 51 && h2 <= 51 && h3 <= 51
    ensures
      var b0, b1, b2 := h0 | (h1 << 6), (h1 >> 2) | (h2 << 4), (h2 >> 4) | (h3 << 2);
      && b0 & 63 == h0
      && ((b0 >> 6) | (b1 << 2)) & 63 == h1
      && ((b1 >> 4) | (b2 << 4)) & 63 == h2
      && (b2 >> 2) & 63 == h3 && ((b2 >> 2) | (next << 6)) & 63 == h3
  {}

  lemma GroupBytes(h: seq<byte>, q: nat)
    requires |h| == M && 4 * q + 3 < M
    ensures Packed(h)[3 * q] == h[4 * q] | (h[4 * q + 1] << 6)
    ensures Packed(h)[3 * q + 1] == (h[4 * q + 1] >> 2) | (h[4 * q + 2] << 4)
    ensures Packed(h)[3 * q + 2] == (h[4 * q + 2] >> 4) | (h[4 * q + 3] << 2)
  {}

  /** Register i comes back out of the packing of h. */
  predicate Returned(h: seq<byte>, i: nat) {
    i < |h| && ByteIdx(i) < PACKED && Unpacked(Packed(h), i) == h[i]
  }

  lemma Unpack0(h: seq<byte>, q: nat)
    requires IsRegisters(h) && 4 * q + 3 < M
    ensures Returned(h, 4 * q)
  {
    Position(q, 0);
    GroupBytes(h, q);
    Lanes(h[4 * q], h[4 * q + 1], 0, 0, 0);
  }

  lemma Unpack1(h: seq<byte>, q: nat)
    requires IsRegisters(h) && 4 * q + 3 < M
    ensures Returned(h, 4 * q + 1)
  {
    Position(q, 1);
    GroupBytes(h, q);
    Lanes(h[4 * q], h[4 * q + 1], h[4 * q + 2], 0, 0);
  }

  lemma Unpack2(h: seq<byte>, q: nat)
    requires IsRegisters(h) && 4 * q + 3 < M
    ensures Returned(h, 4 * q + 2)
  {
    Position(q, 2);
    GroupBytes(h, q);
    Lanes(0, h[4 * q + 1], h[4 * q + 2], h[4 * q + 3], 0);
  }

  lemma Unpack3(h: seq<byte>, q: nat)
    requires IsRegisters(h) && 4 * q + 3 < M
    ensures Returned(h, 4 * q + 3)
  {
    Position(q, 3);
    GroupBytes(h, q);
    Lanes(0, 0, h[4 * q + 2], h[4 * q + 3], if 3 * q + 3 < PACKED then Packed(h)[3 * q + 3] else 0);
  }

  /** Unpacking inverts packing, across the byte boundaries. */
  lemma UnpackPacked(h: seq<byte>, i: nat)
    requires IsRegisters(h) && i < M
    ensures Returned(h, i)
  {
    var q := i / 4;
    if i == 4 * q { Unpack0(h, q); }
    else if i == 4 * q + 1 { Unpack1(h, q); }
    else if i == 4 * q + 2 { Unpack2(h, q); }
    else { Unpack3(h, q); }
  }

  // ---- sparse form: run-length opcodes ----

  /** One opcode: `run` registers of value v, in `size` bytes. */
  datatype Op = Op(v: byte, run: nat, size: nat)

  function FirstOp(body: seq<byte>): (o: Option<Op>)
    requires body != []
    ensures o.Some? ==> 1 <= o.value.size <= |body| && o.value.run >= 1
  {
    var op := body[0];
    if op & 0xc0 == 0 then Some(Op(0, ToNat(op & 0x3f) + 1, 1))                        // ZERO
    else if op & 0xc0 == 0x40 then                                                    // XZERO
      if |body| < 2 then None else Some(Op(0, ToNat(op & 0x3f) * 256 + ToNat(body[1]) + 1, 2))
    else Some(Op(((op >> 2) & 0x1f) + 1, ToNat(op & 3) + 1, 1))                       // VAL
  }

  function Run(v: byte, n: nat): seq<byte> { seq(n, i => v) }

  /** The registers an opcode string stands for. */
  function Expand(body: seq<byte>): Option<seq<byte>>
    decreases |body|
  {
    if body == [] then Some([])
    else
      var o := FirstOp(body);
      if o.None? then None
      else Prefixed(Run(o.value.v, o.value.run), Expand(body[o.value.size..]))
  }

  function Prefixed(p: seq<byte>, e: Option<seq<byte>>): Option<seq<byte>> {
    if e.None? then None else Some(p + e.value)
  }

  lemma PrefixedTwice(p: seq<byte>, q: seq<byte>, e: Option<seq<byte>>)
    ensures Prefixed(p, Prefixed(q, e)) == Prefixed(p + q, e)
    ensures Prefixed([], e) == e
  {
    if e.Some? {
      assert p + (q + e.value) == p + q + e.value;
      assert [] + e.value == e.value;
    }
  }

  /** op is the complete encoding of a run, whatever follows. */
  ghost predicate Encodes(op: seq<byte>, v: byte, run: nat) {
    op != [] && forall rest :: FirstOp(op + rest) == Some(Op(v, run, |op|))
  }

  lemma FirstOpLocal(body: seq<byte>, more: seq<byte>)
    requires body != [] && FirstOp(body).Some?
    ensures FirstOp(body + more) == FirstOp(body)
  {}

  lemma {:induction false} ExpandAppend(ops: seq<byte>, op: seq<byte>, v: byte, run: nat)
    requires Expand(ops).Some? && Encodes(op, v, run)
    ensures Expand(ops + op) == Some(Expand(ops).value + Run(v, run))
    decreases |ops|
  {
    if ops == [] {
      assert op + [] == op && ops + op == op;
      assert FirstOp(op + []) == Some(Op(v, run, |op|));
      assert op[|op|..] == [];
      assert Run(v, run) + [] == [] + Run(v, run);
    } else {
      var o := FirstOp(ops).value;
      FirstOpLocal(ops, op);
      assert (ops + op)[o.size..] == ops[o.size..] + op;
      ExpandAppend(ops[o.size..], op, v, run);
      assert Run(o.v, o.run) + (Expand(ops[o.size..]).value + Run(v, run))
          == Run(o.v, o.run) + Expand(ops[o.size..]).value + Run(v, run);
    }
  }

  function ZeroOp(run: nat): seq<byte>
    requires 1 <= run <= 64
  {
    [ToByte(run - 1)]
  }

  function XZeroOp(run: nat): seq<byte>
    requires 1 <= run <= M
  {
    [0x40 | ToByte((run - 1) / 256), ToByte((run - 1) % 256)]
  }

  function ValOp(v: byte, run: nat): seq<byte>
    requires 1 <= run <= 4
  {
    [0x80 | ((v - 1) << 2) | ToByte(run - 1)]
  }

  lemma ZeroOpEncodes(run: nat)
    requires 1 <= run <= 64
    ensures Encodes(ZeroOp(run), 0, run)
  {
    SmallByte(run - 1);
    ByteRoundTrip(run - 1);
  }

  lemma XZeroOpEncodes(run: nat)
    requires 1 <= run <= M
    ensures Encodes(XZeroOp(run), 0, run)
  {
    var hi, lo := (run - 1) / 256, (run - 1) % 256;
    SmallByte(hi);
    ByteRoundTrip(hi);
    ByteRoundTrip(lo);
    XZeroMask(ToByte(hi));
    XZeroFirst(0x40 | ToByte(hi), ToByte(lo), hi, lo);
  }

  lemma XZeroFirst(op0: byte, op1: byte, hi: nat, lo: nat)
    requires op0 & 0xc0 == 0x40 && ToNat(op0 & 0x3f) == hi && ToNat(op1) == lo
    ensures Encodes([op0, op1], 0, hi * 256 + lo + 1)
  {
    forall rest ensures FirstOp([op0, op1] + rest) == Some(Op(0, hi * 256 + lo + 1, 2)) {
      assert ([op0, op1] + rest)[0] == op0 && ([op0, op1] + rest)[1] == op1;
    }
  }

  lemma XZeroMask(b: byte)
    requires b & 0xc0 == 0
    ensures (0x40 | b) & 0xc0 == 0x40 && (0x40 | b) & 0x3f == b
  {}

  lemma ValOpEncodes(v: byte, run: nat)
    requires 1 <= v <= 32 && 1 <= run <= 4
    ensures Encodes(ValOp(v, run), v, run)
  {
    SmallByte(run - 1);
    ByteRoundTrip(run - 1);
    ValMask(v, ToByte(run - 1));
    ValFirst(ValOp(v, run)[0], v, run);
  }

  lemma ValFirst(op: byte, v: byte, run: nat)
    requires op & 0xc0 != 0 && op & 0xc0 != 0x40 && ((op >> 2) & 0x1f) + 1 == v && ToNat(op & 3) + 1 == run
    ensures Encodes([op], v, run)
  {
    forall rest ensures FirstOp([op] + rest) == Some(Op(v, run, 1)) { assert ([op] + rest)[0] == op; }
  }

  lemma ValMask(v: byte, b: byte)
    requires 1 <= v <= 32 && b & 0xfc == 0
    ensures
      var op := 0x80 | ((v - 1) << 2) | b;
      op & 0xc0 != 0 && op & 0xc0 != 0x40 && ((op >> 2) & 0x1f) + 1 == v && op & 3 == b
  {}

  /** The opcodes stand for the first i registers. */
  ghost predicate Covers(ops: seq<byte>, h: seq<byte>, i: nat)
    requires i <= |h|
  {
    Expand(ops) == Some(h[..i])
  }

  /** One more opcode, for n registers of h that all equal v. */
  lemma AppendRun(h: seq<byte>, ops: seq<byte>, i: nat, op: seq<byte>, v: byte, n: nat)
    requires i + n <= |h| && Covers(ops, h, i)
    requires Encodes(op, v, n) && forall k :: i <= k < i + n ==> h[k] == v
    ensures Covers(ops + op, h, i + n)
  {
    ExpandAppend(ops, op, v, n);
    NextRun(h, i, v, n);
  }

  lemma NextRun(h: seq<byte>, i: nat, v: byte, n: nat)
    requires i + n <= |h| && forall k :: i <= k < i + n ==> h[k] == v
    ensures h[..i] + Run(v, n) == h[..i + n]
  {}

  /** How many bytes the opcodes of one run take. */
  function RunBytes(v: byte, run: nat): nat {
    if run == 0 then 0 else if v != 0 then (run + 3) / 4 else if run <= 64 then 1 else 2
  }

  /** Where the run that starts at i ends. */
  function RunEnd(h: seq<byte>, i: nat): (e: nat)
    requires i < |h|
    ensures i < e <= |h|
    decreases |h| - i
  {
    if i + 1 < |h| && h[i + 1] == h[i] then RunEnd(h, i + 1) else i + 1
  }

  /** And how many those of all the runs from i on take. */
  function SparseBytes(h: seq<byte>, i: nat): nat
    requires i <= |h|
    decreases |h| - i
  {
    if i == |h| then 0 else RunBytes(h[i], RunEnd(h, i) - i) + SparseBytes(h, RunEnd(h, i))
  }

  /** The next opcode for a run with `left` registers to go. */
  method NextOp(v: byte, left: nat) returns (op: seq<byte>, n: nat)
    requires 1 <= left <= M && v <= SPARSE_VAL_MAX
    ensures 1 <= n <= left && Encodes(op, v, n)
    ensures |op| + RunBytes(v, left - n) == RunBytes(v, left)
  {
    if v == 0 {
      n := left;
      if left <= 64 {
        ZeroOpEncodes(left);
        op := ZeroOp(left);
      } else {
        XZeroOpEncodes(left);
        op := XZeroOp(left);
      }
    } else {
      n := if left < 4 then left else 4;
      ValOpEncodes(v, n);
      op := ValOp(v, n);
    }
  }

  /** Appends the next opcode of a run that goes on to `end`. */
  method EmitOp(h: seq<byte>, pos: nat, end: nat, ops0: seq<byte>) returns (ops: seq<byte>, pos': nat)
    requires pos < end <= |h| == M && h[pos] <= SPARSE_VAL_MAX
    requires forall k :: pos <= k < end ==> h[k] == h[pos]
    requires Covers(ops0, h, pos)
    ensures pos < pos' <= end && Covers(ops, h, pos')
    ensures |ops| + RunBytes(h[pos], end - pos') == |ops0| + RunBytes(h[pos], end - pos)
  {
    var op, n := NextOp(h[pos], end - pos);
    AppendRun(h, ops0, pos, op, h[pos], n);
    ops, pos' := ops0 + op, pos + n;
  }

  /** Appends the opcodes of one run of `run` equal registers at i. */
  method EmitRun(h: seq<byte>, i: nat, run: nat, ops0: seq<byte>) returns (ops: seq<byte>)
    requires |h| == M && 1 <= run && i + run <= M && h[i] <= SPARSE_VAL_MAX
    requires forall k :: i <= k < i + run ==> h[k] == h[i]
    requires Covers(ops0, h, i)
    ensures Covers(ops, h, i + run) && |ops| == |ops0| + RunBytes(h[i], run)
  {
    ops := ops0;
    var pos := i;
    while pos < i + run
      invariant i <= pos <= i + run && Covers(ops, h, pos)
      invariant |ops| + RunBytes(h[i], i + run - pos) == |ops0| + RunBytes(h[i], run)
    {
      ops, pos := EmitOp(h, pos, i + run, ops);
    }
  }

  method RunLength(h: seq<byte>, i: nat) returns (run: nat)
    requires |h| == M && i < M
    ensures 1 <= run && i + run <= M && forall k :: i <= k < i + run ==> h[k] == h[i]
    ensures i + run == RunEnd(h, i)
  {
    run := 1;
    while i + run < M && h[i + run] == h[i]
      invariant 1 <= run && i + run <= M && forall k :: i <= k < i + run ==> h[k] == h[i]
      invariant RunEnd(h, i + run - 1) == RunEnd(h, i)
    {
      run := run + 1;
    }
  }

  /** Every register fits an opcode. */
  predicate AllSmall(h: seq<byte>) { forall k :: 0 <= k < |h| ==> h[k] <= SPARSE_VAL_MAX }

  /** sparseOps: the opcodes stand for exactly the 16384 registers; refused if one is too large. */
  method SparseOps(h: seq<byte>) returns (ops: seq<byte>, ok: bool)
    requires |h| == M
    ensures ok <==> AllSmall(h)
    ensures ok ==> Expand(ops) == Some(h) && |ops| == SparseBytes(h, 0)
  {
    ops := [];
    var i := 0;
    while i < M
      invariant 0 <= i <= M && Covers(ops, h, i)
      invariant forall k :: 0 <= k < i ==> h[k] <= SPARSE_VAL_MAX
      invariant |ops| + SparseBytes(h, i) == SparseBytes(h, 0)
    {
      var run := RunLength(h, i);
      if h[i] > SPARSE_VAL_MAX { return [], false; }
      ops := EmitRun(h, i, run, ops);
      i := i + run;
    }
    assert h[..M] == h;
    ok := true;
  }

  // ---- the string format ----

  function Unpack(body: seq<byte>): seq<byte>
    requires |body| == PACKED
  {
    seq(M, i requires 0 <= i < M => InBody(i); Unpacked(body, i))
  }

  lemma InBody(i: nat)
    ensures i < M ==> ByteIdx(i) < PACKED
  {}

  /** What a Redis HLL string means; None if it is not a well-formed one. */
  function Decode(b: seq<byte>): Option<seq<byte>> {
    if |b| < 16 || b[..4] != [72, 89, 76, 76] then None
    else if b[4] == 0 then
      if |b| != 16 + PACKED then None
      else if IsRegisters(Unpack(b[16..])) then Some(Unpack(b[16..])) else None
    else if b[4] == 1 then
      var r := Expand(b[16..]);
      if r.Some? && |r.value| == M then r else None
    else None
  }

  lemma Form(encoding: byte, body: seq<byte>)
    ensures (Header(encoding) + body)[4] == encoding && |Header(encoding) + body| == 16 + |body|
  {}

  lemma DenseRoundTrip(h: seq<byte>)
    requires IsRegisters(h)
    ensures Decode(Header(0) + Packed(h)) == Some(h)
  {
    UnpackAll(h);
    DenseString(Packed(h));
  }

  lemma DenseString(body: seq<byte>)
    requires |body| == PACKED
    ensures Decode(Header(0) + body) == if IsRegisters(Unpack(body)) then Some(Unpack(body)) else None
  {
    assert (Header(0) + body)[16..] == body;
  }

  lemma UnpackAll(h: seq<byte>)
    requires IsRegisters(h)
    ensures Unpack(Packed(h)) == h
  {
    forall i | 0 <= i < M ensures Unpack(Packed(h))[i] == h[i] { UnpackPacked(h, i); }
  }

  lemma SparseRoundTrip(h: seq<byte>, ops: seq<byte>)
    requires |h| == M && Expand(ops) == Some(h)
    ensures Decode(Header(1) + ops) == Some(h)
  {
    assert (Header(1) + ops)[16..] == ops;
  }

  /** encodeAuto: sparse while the sketch qualifies and is not pinned dense. Whichever form is
      chosen, it reads back as the same registers. */
  method EncodeAuto(h: seq<byte>, pinDense: bool) returns (out: seq<byte>)
    requires IsRegisters(h)
    ensures Decode(out) == Some(h)
    ensures out[4] == 1 <==> !pinDense && AllSmall(h) && 16 + SparseBytes(h, 0) <= SPARSE_MAX_BYTES
    ensures |out| == 16 + if out[4] == 1 then SparseBytes(h, 0) else PACKED
    ensures out[4] != 1 ==> out == Header(0) + Packed(h)
  {
    if !pinDense {
      var ops, ok := SparseOps(h);
      if ok && 16 + |ops| <= SPARSE_MAX_BYTES {
        SparseRoundTrip(h, ops);
        Form(1, ops);
        return Header(1) + ops;
      }
    }
    out := EncodeRedis(h);
    DenseRoundTrip(h);
    Form(0, Packed(h));
  }

  lemma DecodeStep(ops: seq<byte>, body: seq<byte>, p: seq<byte>)
    requires body != [] && Expand(ops) == Prefixed(p, Expand(body))
    ensures FirstOp(body).None? ==> Expand(ops) == None
    ensures FirstOp(body).Some? ==>
      var o := FirstOp(body).value;
      && Expand(ops) == Prefixed(p + Run(o.v, o.run), Expand(body[o.size..]))
      && (Expand(ops).Some? ==> |Expand(ops).value| >= |p| + o.run)
  {
    if FirstOp(body).Some? {
      var o := FirstOp(body).value;
      PrefixedTwice(p, Run(o.v, o.run), Expand(body[o.size..]));
    }
  }

  /** The sparse branch of decodeRedis, writing runs into a zeroed register array. */
  method DecodeSparse(ops: seq<byte>) returns (r: Option<seq<byte>>)
    ensures r == var e := Expand(ops); if e.Some? && |e.value| == M then e else None
  {
    var h := new byte[M](i => 0);
    var idx := 0;
    var body := ops;
    ghost var p: seq<byte> := [];
    PrefixedTwice(p, p, Expand(body));
    while body != []
      invariant 0 <= idx <= M && forall k :: idx <= k < M ==> h[k] == 0
      invariant p == h[..idx] && Expand(ops) == Prefixed(p, Expand(body))
      decreases |body|
    {
      DecodeStep(ops, body, p);
      var o := FirstOp(body);
      if o.None? { return None; }
      if idx + o.value.run > M { return None; }
      if o.value.v != 0 { Fill(h, idx, o.value.run, o.value.v); }
      p := p + Run(o.value.v, o.value.run);
      assert h[..idx + o.value.run] == p;
      idx := idx + o.value.run;
      body := body[o.value.size..];
    }
    assert p + [] == p;
    assert idx == M ==> h[..] == h[..M];
    if idx == M { return Some(h[..]); }
    return None;
  }

  method Fill(h: array<byte>, idx: nat, run: nat, v: byte)
    requires idx + run <= h.Length
    modifies h
    ensures forall k :: 0 <= k < h.Length ==> h[k] == if idx <= k < idx + run then v else old(h[k])
  {
    var n := 0;
    while n < run
      invariant 0 <= n <= run
      invariant forall k :: 0 <= k < h.Length ==> h[k] == if idx <= k < idx + n then v else old(h[k])
    {
      h[idx + n] := v;
      n := n + 1;
    }
  }

  /** decodeRedis */
  method DecodeRedis(b: seq<byte>) returns (r: Option<seq<byte>>)
    ensures r == Decode(b)
  {
    if |b| < 16 || b[..4] != [72, 89, 76, 76] { return None; }
    if b[4] == 0 {
      if |b| != 16 + PACKED { return None; }
      r := DecodeDense(b[16..]);
    } else if b[4] == 1 {
      r := DecodeSparse(b[16..]);
    } else {
      r := None;
    }
  }

  method DecodeDense(body: seq<byte>) returns (r: Option<seq<byte>>)
    requires |body| == PACKED
    ensures r == if IsRegisters(Unpack(body)) then Some(Unpack(body)) else None
  {
    var h := new byte[M](i => 0);
    var i := 0;
    while i < M
      invariant 0 <= i <= M
      invariant forall k :: 0 <= k < i ==> h[k] == Unpack(body)[k] && h[k] <= 51
    {
      InBody(i);
      h[i] := Unpacked(body, i);
      if h[i] > 51 {
        assert Unpack(body)[i] > 51;
        return None;
      }
      i := i + 1;
    }
    assert h[..] == Unpack(body);
    return Some(h[..]);
  }

  // ---- for the registers of module Hll ----

  function ToBytes(h: seq<nat>): seq<byte>
    requires IsSketch(h)
  {
    seq(M, i requires 0 <= i < M => ToByte(h[i]))
  }

  /** Every sketch that add and merge can produce survives either string form. */
  lemma SketchBytes(h: seq<nat>)
    requires IsSketch(h)
    ensures IsRegisters(ToBytes(h))
    ensures forall i :: 0 <= i < M ==> ToNat(ToBytes(h)[i]) == h[i]
  {
    forall i | 0 <= i < M ensures ToBytes(h)[i] <= 51 && ToNat(ToBytes(h)[i]) == h[i] {
      ToByteBound(h[i]);
      ByteRoundTrip(h[i]);
    }
  }
}
