/** The order of the stored metadata keys that SCAN walks: "/{P}/m/{db}/{key}/{replica}", with the key
    and replica segments encoded. A key's entries form one contiguous block. The empty key is not laid out this way:
    its segment is empty, and the path cleaning of the key constructor merges the two slashes around it. */
module ScanOrder {
  import opened Prelude
  import opened ByteStrings

  const SLASH: nat := 47
  const BUCKETS: nat := 256

  /** The segment encoding (base32: reversible, every character above '/'), the bucket hash, and what
      follows the bucket number in the prefix of one database. */
  datatype Layout = Layout(enc: Bytes -> Bytes, dec: Bytes -> Option<Bytes>, bucket: Bytes -> nat, tail: Bytes)

  ghost predicate Good(c: Layout) {
    (forall x :: c.dec(c.enc(x)) == Some(x)) && (forall x :: NoSlash(c.enc(x))) && (forall x :: c.bucket(x) < BUCKETS)
  }

  predicate NoSlash(b: Bytes) { forall i :: 0 <= i < |b| ==> b[i] > SLASH }

  /** One replica's metadata slot of one key. */
  datatype Slot = Slot(name: Bytes, rep: Bytes)

  function Hex(d: nat): nat { if d < 10 then 48 + d else 87 + d }

  function Prefix(c: Layout, p: nat): Bytes { [SLASH, Hex(p / 16), Hex(p % 16)] + c.tail }

  function Rest(c: Layout, s: Slot): Bytes { c.enc(s.name) + ([SLASH] + c.enc(s.rep)) }

  function Str(c: Layout, p: nat, s: Slot): Bytes { Prefix(c, p) + Rest(c, s) }

  // ---- decoding the key name ----

  function UpToSlash(b: Bytes): Bytes {
    if b == [] || b[0] == SLASH then [] else [b[0]] + UpToSlash(b[1..])
  }

  function KeyNameFromMeta(c: Layout, k: Bytes, prefix: Bytes): Bytes {
    var rest := if prefix <= k then k[|prefix|..] else k;
    match c.dec(UpToSlash(rest))
    case None => []
    case Some(name) => name
  }

  lemma {:induction false} UpToSlashStops(a: Bytes, b: Bytes)
    requires NoSlash(a)
    ensures UpToSlash(a + ([SLASH] + b)) == a
  {
    if a != [] {
      assert (a + ([SLASH] + b))[1..] == a[1..] + ([SLASH] + b);
      UpToSlashStops(a[1..], b);
    }
  }

  lemma NameDecoded(c: Layout, p: nat, s: Slot)
    requires Good(c)
    ensures KeyNameFromMeta(c, Str(c, p, s), Prefix(c, p)) == s.name
  {
    assert Str(c, p, s)[|Prefix(c, p)|..] == Rest(c, s);
    assert NoSlash(c.enc(s.name));
    UpToSlashStops(c.enc(s.name), c.enc(s.rep));
  }

  // ---- blocks ----

  lemma {:induction false} SamePrefix(a: Bytes, x: Bytes, y: Bytes)
    ensures Less(a + x, a + y) <==> Less(x, y)
  {
    if a == [] {
      assert a + x == x && a + y == y;
    } else {
      assert (a + x)[1..] == a[1..] + x && (a + y)[1..] == a[1..] + y;
      SamePrefix(a[1..], x, y);
    }
  }

  /** Different segments compare the same way whatever follows their slashes. */
  lemma {:induction false} SegmentOrder(a: Bytes, b: Bytes, s: Bytes, t: Bytes, t': Bytes)
    requires NoSlash(a) && NoSlash(b) && a != b
    ensures Less(a + ([SLASH] + s), b + ([SLASH] + t)) <==> Less(a + ([SLASH] + s), b + ([SLASH] + t'))
    decreases |a|
  {
    if a == [] {
      assert b[0] > SLASH;
    } else if b == [] {
      assert a[0] > SLASH;
    } else {
      assert (a + ([SLASH] + s))[1..] == a[1..] + ([SLASH] + s);
      assert (b + ([SLASH] + t))[1..] == b[1..] + ([SLASH] + t);
      assert (b + ([SLASH] + t'))[1..] == b[1..] + ([SLASH] + t');
      if a[0] == b[0] {
        assert a[1..] != b[1..] by { assert a == [a[0]] + a[1..] && b == [b[0]] + b[1..]; }
        SegmentOrder(a[1..], b[1..], s, t, t');
      }
    }
  }

  /** An entry of another key is on the same side of all entries of a key. */
  lemma OneSide(c: Layout, p: nat, other: Slot, a: Slot, b: Slot)
    requires Good(c) && a.name == b.name && other.name != a.name
    ensures Less(Str(c, p, other), Str(c, p, a)) <==> Less(Str(c, p, other), Str(c, p, b))
  {
    var x, y := c.enc(other.name), c.enc(a.name);
    assert c.dec(x) == Some(other.name) && c.dec(y) == Some(a.name);
    assert NoSlash(x) && NoSlash(y);
    SegmentOrder(x, y, c.enc(other.rep), c.enc(a.rep), c.enc(b.rep));
    SamePrefix(Prefix(c, p), Rest(c, other), Rest(c, a));
    SamePrefix(Prefix(c, p), Rest(c, other), Rest(c, b));
  }

  /** No other key's entry sorts between two entries of a key. */
  lemma Contiguous(c: Layout, p: nat, a: Slot, other: Slot, b: Slot)
    requires Good(c) && a.name == b.name
    requires Less(Str(c, p, a), Str(c, p, other)) && Less(Str(c, p, other), Str(c, p, b))
    ensures other.name == a.name
  {
    if other.name != a.name {
      OneSide(c, p, other, a, b);
      LessTotal(Str(c, p, a), Str(c, p, other));
    }
  }

  /** Everything in a lower bucket sorts below everything in a higher one. */
  lemma BucketOrder(c: Layout, p: nat, s: Slot, q: nat, t: Slot)
    requires p < q < BUCKETS
    ensures Less(Str(c, p, s), Str(c, q, t))
  {
    var x, y := c.tail + Rest(c, s), c.tail + Rest(c, t);
    assert Str(c, p, s) == [SLASH] + ([Hex(p / 16)] + ([Hex(p % 16)] + x));
    assert Str(c, q, t) == [SLASH] + ([Hex(q / 16)] + ([Hex(q % 16)] + y));
    SamePrefix([SLASH], [Hex(p / 16)] + ([Hex(p % 16)] + x), [Hex(q / 16)] + ([Hex(q % 16)] + y));
    if p / 16 == q / 16 {
      SamePrefix([Hex(p / 16)], [Hex(p % 16)] + x, [Hex(q % 16)] + y);
    }
  }
}
