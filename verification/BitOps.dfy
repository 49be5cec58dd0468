/** BITCOUNT and BITPOS: range clamping, edge masks and whole-byte skipping against bit-by-bit
    definitions. Bit 0 is the most significant bit of byte 0. */
module BitOps {
  import opened Prelude

  function Mask(r: nat): byte {
    if r == 0 then 0x80 else if r == 1 then 0x40 else if r == 2 then 0x20 else if r == 3 then 0x10
    else if r == 4 then 0x08 else if r == 5 then 0x04 else if r == 6 then 0x02 else 0x01
  }

  /** 0xff >> r: the bits from r on. */
  function HeadMask(r: nat): byte {
    if r == 0 then 0xff else if r == 1 then 0x7f else if r == 2 then 0x3f else if r == 3 then 0x1f
    else if r == 4 then 0x0f else if r == 5 then 0x07 else if r == 6 then 0x03 else 0x01
  }

  /** 0xff << (7 - r): the bits up to r. */
  function TailMask(r: nat): byte {
    if r == 0 then 0x80 else if r == 1 then 0xc0 else if r == 2 then 0xe0 else if r == 3 then 0xf0
    else if r == 4 then 0xf8 else if r == 5 then 0xfc else if r == 6 then 0xfe else 0xff
  }

  predicate Bit(b: byte, r: nat) { b & Mask(r) != 0 }

  predicate BitAt(data: seq<byte>, pos: nat)
    requires pos < 8 * |data|
  {
    Bit(data[pos / 8], pos % 8)
  }

  /** bits.OnesCount8 */
  function Ones(b: byte): nat {
    One(Bit(b, 0)) + One(Bit(b, 1)) + One(Bit(b, 2)) + One(Bit(b, 3)) +
    One(Bit(b, 4)) + One(Bit(b, 5)) + One(Bit(b, 6)) + One(Bit(b, 7))
  }

  /** Set bits of the string at positions from <= p < to, one by one. */
  function CountBits(data: seq<byte>, first: nat, stop: nat): nat
    requires first <= stop <= 8 * |data|
    decreases stop - first
  {
    if first == stop then 0 else One(BitAt(data, first)) + CountBits(data, first + 1, stop)
  }

  lemma {:induction false} CountSplit(data: seq<byte>, first: nat, mid: nat, stop: nat)
    requires first <= mid <= stop <= 8 * |data|
    ensures CountBits(data, first, stop) == CountBits(data, first, mid) + CountBits(data, mid, stop)
    decreases mid - first
  {
    if first < mid { CountSplit(data, first + 1, mid, stop); }
  }

  // ---- one byte ----

  function ByteCount(b: byte, lo: nat, hi: nat): nat
    requires lo <= hi <= 8
    decreases hi - lo
  {
    if lo == hi then 0 else One(Bit(b, lo)) + ByteCount(b, lo + 1, hi)
  }

  lemma {:induction false} CountInByte(data: seq<byte>, i: nat, lo: nat, hi: nat)
    requires i < |data| && lo <= hi <= 8
    ensures CountBits(data, 8 * i + lo, 8 * i + hi) == ByteCount(data[i], lo, hi)
    decreases hi - lo
  {
    if lo < hi {
      CountInByte(data, i, lo + 1, hi);
      assert (8 * i + lo) / 8 == i && (8 * i + lo) % 8 == lo;
    }
  }

  lemma MaskedBit(b: byte, lo: nat, hi: nat, r: nat)
    requires lo <= hi <= 7 && r <= 7
    ensures Bit(b & HeadMask(lo) & TailMask(hi), r) <==> lo <= r <= hi && Bit(b, r)
  {
    if r == 0 { } else if r == 1 { } else if r == 2 { } else if r == 3 { }
    else if r == 4 { } else if r == 5 { } else if r == 6 { } else { }
  }

  function Between(b: byte, lo: nat, hi: nat): nat
    requires hi <= 8
  {
    if lo <= hi then ByteCount(b, lo, hi) else 0
  }

  lemma {:induction false} CountOutside(b: byte, c: byte, lo: nat, hi: nat, first: nat, stop: nat)
    requires first <= stop <= 8 && lo <= hi <= 8
    requires forall r :: 0 <= r < 8 ==> (Bit(c, r) <==> lo <= r < hi && Bit(b, r))
    ensures ByteCount(c, first, stop) == Between(b, if first < lo then lo else first, if stop > hi then hi else stop)
    decreases stop - first
  {
    if first < stop { CountOutside(b, c, lo, hi, first + 1, stop); }
  }

  /** Masking off both ends of a byte counts exactly the bits lo..hi. */
  lemma MaskedOnes(b: byte, lo: nat, hi: nat)
    requires lo <= hi <= 7
    ensures Ones(b & HeadMask(lo) & TailMask(hi)) == ByteCount(b, lo, hi + 1)
  {
    var c := b & HeadMask(lo) & TailMask(hi);
    forall r | 0 <= r < 8 ensures Bit(c, r) <==> lo <= r < hi + 1 && Bit(b, r) { MaskedBit(b, lo, hi, r); }
    CountOutside(b, c, lo, hi + 1, 0, 8);
  }

  // ---- bitCountRange ----

  method CountBytes(data: seq<byte>, s: nat, e: nat) returns (c: nat)
    requires s <= e < |data|
    ensures c == CountBits(data, 8 * s, 8 * e + 8)
  {
    c := 0;
    var i := s;
    while i <= e
      invariant s <= i <= e + 1
      invariant c == CountBits(data, 8 * s, 8 * i)
    {
      c := c + Ones(data[i]);
      CountInByte(data, i, 0, 8);
      CountSplit(data, 8 * s, 8 * i, 8 * i + 8);
      i := i + 1;
    }
  }

  method MaskEdges(b: byte, isFirst: bool, sr: nat, isLast: bool, er: nat) returns (m: byte)
    ensures m == b & HeadMask(if isFirst then sr else 0) & TailMask(if isLast then er else 7)
  {
    m := b;
    if isFirst { m := m & HeadMask(sr); }
    if isLast { m := m & TailMask(er); }
  }

  lemma MaskedCount(data: seq<byte>, i: nat, lo: nat, hi: nat)
    requires i < |data| && lo <= hi <= 7
    ensures Ones(data[i] & HeadMask(lo) & TailMask(hi)) == CountBits(data, 8 * i + lo, 8 * i + hi + 1)
  {
    MaskedOnes(data[i], lo, hi);
    CountInByte(data, i, lo, hi + 1);
  }

  /** One byte of the range, masked at the range's edges. */
  method CountOneByte(data: seq<byte>, i: nat, s: nat, e: nat) returns (n: nat)
    requires s <= e < 8 * |data| && s / 8 <= i <= e / 8
    ensures n == CountBits(data, if i == s / 8 then s else 8 * i, if i == e / 8 then e + 1 else 8 * i + 8)
  {
    var m := MaskEdges(data[i], i == s / 8, s % 8, i == e / 8, e % 8);
    n := Ones(m);
    MaskedCount(data, i, if i == s / 8 then s % 8 else 0, if i == e / 8 then e % 8 else 7);
  }

  /** In bits: the first and last byte are masked, the others counted whole. */
  method CountBitRange(data: seq<byte>, s: nat, e: nat) returns (c: nat)
    requires s <= e < 8 * |data|
    ensures c == CountBits(data, s, e + 1)
  {
    c := 0;
    var i, at := s / 8, s;
    while i <= e / 8
      invariant s / 8 <= i <= e / 8 + 1
      invariant at == if i == s / 8 then s else if i == e / 8 + 1 then e + 1 else 8 * i
      invariant c == CountBits(data, s, at)
    {
      var n := CountOneByte(data, i, s, e);
      var next := if i == e / 8 then e + 1 else 8 * i + 8;
      CountSplit(data, s, at, next);
      c, at, i := c + n, next, i + 1;
    }
  }

  // ---- bitPosRange ----

  /** The least position in [sb, eb] holding the wanted bit, or -1; whole bytes that cannot hold it
      are skipped. */
  method BitPosRange(data: seq<byte>, bit: bool, sb: nat, eb: nat) returns (r: int)
    requires sb <= eb < 8 * |data|
    ensures r == -1 || sb <= r <= eb
    ensures r >= 0 ==> BitAt(data, r) == bit && forall p: nat :: sb <= p < r ==> BitAt(data, p) != bit
    ensures r == -1 ==> forall p: nat :: sb <= p <= eb ==> BitAt(data, p) != bit
  {
    var skip: byte := if bit then 0x00 else 0xff;
    var pos := sb;
    while pos <= eb
      invariant sb <= pos <= eb + 1
      invariant forall p: nat :: sb <= p < pos ==> BitAt(data, p) != bit
    {
      if pos % 8 == 0 && pos + 7 <= eb && data[pos / 8] == skip {
        forall p: nat | pos <= p < pos + 8 ensures BitAt(data, p) != bit {
          assert p / 8 == pos / 8;
        }
        pos := pos + 8;
        continue;
      }
      if BitAt(data, pos) == bit { return pos; }
      pos := pos + 1;
    }
    return -1;
  }

  // ---- bitRange ----

  /** A Redis index: negative counts from the end, and no further back than the start. */
  function Norm(x: int, total: nat): int {
    if x >= 0 then x else if x + total >= 0 then x + total else 0
  }

  method BitRange(n: nat, start: int, end: int, hasStart: bool, hasEnd: bool, inBits: bool)
    returns (s: int, e: int, ok: bool)
    ensures
      var total := if inBits then 8 * n else n;
      && (ok ==> 0 <= s <= e < total)
      && (ok <==> exists p :: 0 <= p < total && InRange(p, total, start, end, hasStart, hasEnd))
      && (ok ==> forall p :: 0 <= p < total ==> (s <= p <= e <==> InRange(p, total, start, end, hasStart, hasEnd)))
  {
    var total := if inBits then n * 8 else n;
    if total == 0 { return 0, -1, false; }
    s, e := 0, total - 1;
    if hasStart { s := start; }
    if hasEnd { e := end; }
    if s < 0 { s := s + total; }
    if e < 0 { e := e + total; }
    if s < 0 { s := 0; }
    if e < 0 { e := 0; }
    if e >= total { e := total - 1; }
    ok := s <= e;
    if ok { assert InRange(s, total, start, end, hasStart, hasEnd); }
  }

  predicate InRange(p: int, total: nat, start: int, end: int, hasStart: bool, hasEnd: bool) {
    (hasStart ==> Norm(start, total) <= p) && (hasEnd ==> p <= Norm(end, total))
  }

  // ---- BITPOS ----

  /** A bit of the string extended with zeros for ever. */
  predicate ExtBit(data: seq<byte>, p: nat) { p < 8 * |data| && BitAt(data, p) }

  /** What BITPOS answers on a string. Looking for a 0 without an explicit end, the string counts as followed by
      zeros, so the answer is then the least such position, always; otherwise it is the least position inside
      the range, or -1. */
  ghost predicate IsBitPos(data: seq<byte>, bit: bool, start: int, end: int, hasStart: bool, hasEnd: bool, inBits: bool,
                           r: int) {
    var total := if inBits then 8 * |data| else |data|;
    var Asked := p => 0 <= p < 8 * |data| &&
      InRange(if inBits then p else p / 8, total, start, end, hasStart, hasEnd);
    && (0 <= r < 8 * |data| ==>
          Asked(r) && BitAt(data, r) == bit && forall p: nat :: p < r && Asked(p) ==> BitAt(data, p) != bit)
    && (r < 0 ==> r == -1 && forall p: nat :: p < 8 * |data| && Asked(p) ==> BitAt(data, p) != bit)
    && (r >= 8 * |data| ==>
          && r == 8 * |data| && !bit && !hasEnd && !ExtBit(data, r)
          && forall p: nat :: p < r && Asked(p) ==> BitAt(data, p) != bit)
    && (!bit && !hasEnd && (exists p: nat :: p < 8 * |data| && Asked(p)) ==> r >= 0)
  }

  /** BITPOS: a missing key holds no 1, and its first 0 is at 0 whatever the range. */
  method BitPos(value: Option<seq<byte>>, bit: bool, start: int, end: int, hasStart: bool, hasEnd: bool, inBits: bool)
    returns (r: int)
    ensures value.None? ==> r == if bit then -1 else 0
    ensures value.Some? ==> IsBitPos(value.value, bit, start, end, hasStart, hasEnd, inBits, r)
  {
    if value.None? { return if bit then -1 else 0; }
    r := BitPosOf(value.value, bit, start, end, hasStart, hasEnd, inBits);
  }

  method BitPosOf(data: seq<byte>, bit: bool, start: int, end: int, hasStart: bool, hasEnd: bool, inBits: bool)
    returns (r: int)
    ensures IsBitPos(data, bit, start, end, hasStart, hasEnd, inBits, r)
  {
    var s, e, ok := BitRange(|data|, start, end, hasStart, hasEnd, inBits);
    if !ok {
      forall p: nat | p < 8 * |data|
        ensures
          var q, total := if inBits then p else p / 8, if inBits then 8 * |data| else |data|;
          !InRange(q, total, start, end, hasStart, hasEnd)
      {
        var q := if inBits then p else p / 8;
        assert 0 <= q < if inBits then 8 * |data| else |data|;
      }
      return -1;
    }
    var sb, eb := s, e;
    if !inBits { sb, eb := s * 8, e * 8 + 7; }
    ghost var total := if inBits then 8 * |data| else |data|;
    forall p: nat | p < 8 * |data|
      ensures sb <= p <= eb <==> InRange(if inBits then p else p / 8, total, start, end, hasStart, hasEnd)
    {
      var q := if inBits then p else p / 8;
      assert 0 <= q < total;
    }
    r := BitPosRange(data, bit, sb, eb);
    if r >= 0 { return; }
    if !bit && !hasEnd {
      assert e == total - 1 by {
        if e < total - 1 {
          assert !(s <= total - 1 <= e);
          assert InRange(total - 1, total, start, end, hasStart, hasEnd) by {
            assert InRange(s, total, start, end, hasStart, hasEnd);
          }
        }
      }
      return eb + 1;
    }
  }
}
