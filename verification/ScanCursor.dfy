/** SCAN cursors: the per-node resume table, the SCAN command over it, and collection scans. */
module ScanCursor {
  import opened Prelude
  import opened ByteStrings
  import opened ScanOrder
  import opened Scan

  /** A stored position: of a keyspace scan (scope []) or of the scan of the collection `scope`. */
  datatype Entry = Entry(db: nat, scope: Bytes, pos: Pos, expires: int)

  function Live(entries: map<nat, Entry>, now: int): map<nat, Entry> {
    map t | t in entries && entries[t].expires > now :: entries[t]
  }

  /** Where a SCAN with this cursor starts; a stale or foreign cursor starts over. */
  function Resolve(entries: map<nat, Entry>, cursor: nat, now: int): Pos {
    if cursor != 0 && cursor in Live(entries, now) && entries[cursor].scope == [] then entries[cursor].pos else START
  }

  /** Where the scan of one collection goes on from. */
  function ResolveMember(entries: map<nat, Entry>, cursor: nat, now: int, db: nat, key: Bytes): Option<Bytes> {
    if cursor != 0 && cursor in Live(entries, now) && entries[cursor].scope == key && entries[cursor].db == db
    then Some(entries[cursor].pos.last) else None
  }

  /** Every live token but `used` still stands for the same position. */
  predicate KeepsOthers(before: map<nat, Entry>, after: map<nat, Entry>, now: int, used: nat) {
    forall t :: t in Live(before, now) && t != used ==> t in after && after[t] == before[t]
  }

  /** One SCAN: the table before and after, the cursor given and the one returned, and the page. */
  datatype Turn = Turn(before: map<nat, Entry>, after: map<nat, Entry>, cursor: nat, next: nat, now: int, page: Page)

  /** One page from where the cursor resolves; cursor 0 comes back exactly at the end, and any other cursor stands
      for the page's end until it expires. */
  ghost predicate IsTurn(c: Layout, count: nat, ttl: int, u: Turn) {
    && u.page.from == Resolve(u.before, u.cursor, u.now)
    && IsPage(c, u.page.ks, u.page.keep, u.page.from, count, u.page.keys, u.page.next)
    && (u.page.next.None? <==> u.next == 0)
    && (u.page.next.Some? ==> Stands(u.after, u.next, u.page.next.value, u.now + ttl))
  }

  /** One HSCAN, SSCAN or ZSCAN, likewise. */
  datatype MTurn = MTurn(before: map<nat, Entry>, after: map<nat, Entry>, cursor: nat, next: nat, now: int, page: MPage)

  ghost predicate IsMTurn(count: nat, ttl: int, db: nat, key: Bytes, u: MTurn) {
    && u.page.from == ResolveMember(u.before, u.cursor, u.now, db, key)
    && IsMemberPage(u.page.names, u.page.keep, u.page.from, count, u.page.page, u.page.end)
    && (u.page.end.None? <==> u.next == 0)
    && (u.page.end.Some? ==> StandsFor(u.after, u.next, db, key, u.page.end.value, u.now + ttl))
  }

  predicate StandsFor(entries: map<nat, Entry>, tok: nat, db: nat, key: Bytes, last: Bytes, expires: int) {
    tok in entries && entries[tok] == Entry(db, key, Pos(0, last), expires)
  }

  predicate Stands(entries: map<nat, Entry>, tok: nat, pos: Pos, expires: int) {
    tok in entries && entries[tok] == Entry(entries[tok].db, [], pos, expires)
  }

  class ResumeTable {
    var next: nat
    var entries: map<nat, Entry>
    const ttl: int

    ghost predicate Valid()
      reads this
    {
      next < U64 && forall t :: t in entries ==> t != 0 && entries[t].pos.p < BUCKETS
    }

    /** No token held is above the counter, which is so until the counter wraps. */
    ghost predicate Ordered()
      reads this
    {
      forall t :: t in entries ==> t <= next
    }

    method Collect(now: int)
      modifies this`entries
      ensures entries == Live(old(entries), now)
    {
      var left: set<nat> := entries.Keys;
      while left != {}
        invariant forall t :: t in left ==> t in entries
        invariant forall t :: t in old(entries) && old(entries)[t].expires > now ==> t in entries
        invariant forall t :: t in entries ==> t in old(entries) && entries[t] == old(entries)[t]
        invariant forall t :: t in entries && t !in left ==> entries[t].expires > now
        decreases |left|
      {
        var t: nat :| t in left;
        if entries[t].expires <= now { entries := entries - {t}; }
        left := left - {t};
      }
    }

    /** The token is never 0, and resolves to e until it expires; other live tokens are untouched. */
    method Alloc(e: Entry, now: int) returns (tok: nat)
      requires Valid() && e.pos.p < BUCKETS
      modifies this
      ensures Valid() && tok != 0
      ensures entries == Live(old(entries), now)[tok := e.(expires := now + ttl)]
      ensures old(Ordered()) && old(next) < U64 - 1 ==>
        Ordered() && next == old(next) + 1 && KeepsOthers(old(entries), entries, now, 0)
    {
      Collect(now);
      next := (next + 1) % U64;
      if next == 0 { next := 1; }
      tok := next;
      entries := entries[tok := e.(expires := now + ttl)];
    }

    method Get(tok: nat, now: int) returns (e: Option<Entry>)
      requires Valid()
      modifies this`entries
      ensures Valid()
      ensures e.Some? <==> tok in Live(old(entries), now)
      ensures e.Some? ==> e.value == old(entries)[tok].(expires := now + ttl)
      ensures entries == if e.Some? then old(entries)[tok := old(entries)[tok].(expires := now + ttl)]
                         else old(entries) - {tok}
      ensures KeepsOthers(old(entries), entries, now, tok)
    {
      if tok !in entries || entries[tok].expires <= now {
        entries := entries - {tok};
        return None;
      }
      entries := entries[tok := entries[tok].(expires := now + ttl)];
      return Some(entries[tok]);
    }

    /** The token starts scans over from now on; no other token is affected. */
    method Free(tok: nat)
      requires Valid()
      modifies this`entries
      ensures Valid() && entries.Keys <= old(entries).Keys
      ensures forall now :: Resolve(entries, tok, now) == START
      ensures forall t :: t in old(entries) && t != tok ==> t in entries && entries[t] == old(entries)[t]
    {
      entries := entries - {tok};
    }

    /** SCAN. Cursors held by other clients are not disturbed. */
    method Scan(c: Layout, ghost ks: set<Slot>, parts: seq<seq<Slot>>, db: nat, cursor: nat, hint: int,
                keep: Bytes -> bool, now: int)
      returns (cursor': nat, keys: seq<Bytes>, ghost end: Option<Pos>)
      requires Good(c) && Lists(c, ks, parts) && Valid()
      modifies this
      ensures Valid()
      ensures IsTurn(c, Count(hint), ttl, Turn(old(entries), entries, cursor, cursor', now,
                                               Page(ks, keep, Resolve(old(entries), cursor, now), keys, end)))
      ensures old(Ordered()) && old(next) < U64 - 1 ==> Ordered() && KeepsOthers(old(entries), entries, now, cursor)
    {
      var from := START;
      if cursor != 0 {
        var e := Get(cursor, now);
        if e.Some? && e.value.scope == [] { from := e.value.pos; }
      }
      var next;
      keys, next := ScanKeys(c, ks, parts, from, Count(hint), keep);
      end := next;
      if next.None? {
        if cursor != 0 { Free(cursor); }
        return 0, keys, end;
      }
      cursor' := Alloc(Entry(db, [], next.value, 0), now);
    }

    /** HSCAN, SSCAN, ZSCAN over the sorted member names. */
    method ScanMembers(db: nat, key: Bytes, cursor: nat, hint: int, keep: Bytes -> bool, names: seq<Bytes>, now: int)
      returns (page: seq<nat>, cursor': nat, ghost end: Option<Bytes>)
      requires Valid() && Ascending(names)
      modifies this
      ensures Valid()
      ensures
        var from := ResolveMember(old(entries), cursor, now, db, key);
        IsMTurn(Count(hint), ttl, db, key,
                MTurn(old(entries), entries, cursor, cursor', now, MPage(names, keep, from, page, end)))
      ensures old(Ordered()) && old(next) < U64 - 1 ==> Ordered() && KeepsOthers(old(entries), entries, now, cursor)
    {
      var from: Option<Bytes> := None;
      if cursor != 0 {
        var e := Get(cursor, now);
        if e.Some? && e.value.scope == key && e.value.db == db { from := Some(e.value.pos.last); }
      }
      var next;
      page, next := MemberPage(names, from, Count(hint), keep);
      end := next;
      if cursor != 0 { Free(cursor); }
      if next.None? { return page, 0, end; }
      cursor' := Alloc(Entry(db, key, Pos(0, next.value), 0), now);
    }
  }

  // ---- following the cursors ----

  /** A cursor outlives other clients' commands: between tables[i] and tables[i + 1] one command runs at times[i],
      with used[i] as its own cursor. */
  lemma {:induction false} CursorSurvives(tables: seq<map<nat, Entry>>, times: seq<int>, used: seq<nat>, tok: nat,
                                          n: nat)
    requires n <= |times| == |used| && |tables| == |times| + 1 && tok in tables[0]
    requires forall i :: 0 <= i < n ==> KeepsOthers(tables[i], tables[i + 1], times[i], used[i])
    requires forall i :: 0 <= i < n ==> used[i] != tok && times[i] < tables[0][tok].expires
    ensures tok in tables[n] && tables[n][tok] == tables[0][tok]
  {
    if n > 0 {
      CursorSurvives(tables, times, used, tok, n - 1);
      assert KeepsOthers(tables[n - 1], tables[n - 1 + 1], times[n - 1], used[n - 1]);
    }
  }

  /** Each turn is given the cursor the one before returned, in time, and other clients have run only commands
      the cursor survives. */
  ghost predicate Followed(c: Layout, count: nat, ttl: int, turns: seq<Turn>) {
    && turns != [] && turns[0].cursor == 0
    && (forall i :: 0 <= i < |turns| ==> IsTurn(c, count, ttl, turns[i]))
    && (forall i :: 0 <= i < |turns| - 1 ==> Follows(turns[i], turns[i + 1], ttl))
  }

  predicate Follows(u: Turn, v: Turn, ttl: int) {
    && u.next != 0 && v.cursor == u.next && v.now < u.now + ttl
    && u.next in u.after && u.next in v.before && v.before[u.next] == u.after[u.next]
  }

  function Pages(turns: seq<Turn>): seq<Page> { seq(|turns|, i requires 0 <= i < |turns| => turns[i].page) }

  /** Following the cursors is a scan, so what is proved of scans is proved of the command. */
  lemma TurnsAreScan(c: Layout, count: nat, ttl: int, turns: seq<Turn>)
    requires Followed(c, count, ttl, turns)
    ensures IsScan(c, count, Pages(turns))
  {
    var pages := Pages(turns);
    forall i | 0 <= i < |pages| - 1 ensures pages[i].next == Some(pages[i + 1].from) {
      var u, v := turns[i], turns[i + 1];
      assert IsTurn(c, count, ttl, u) && Follows(u, v, ttl) && IsTurn(c, count, ttl, v);
      assert u.next in Live(v.before, v.now);
    }
  }

  /** A SCAN followed to cursor 0 returns every key that was there on every page. */
  lemma CommandScanComplete(c: Layout, count: nat, ttl: int, turns: seq<Turn>, name: Bytes)
    requires Good(c) && Followed(c, count, ttl, turns) && turns[|turns| - 1].next == 0 && name != []
    requires forall i :: 0 <= i < |turns| ==> Wanted(turns[i].page, name)
    ensures exists i :: 0 <= i < |turns| && name in turns[i].page.keys
  {
    var pages := Pages(turns);
    TurnsAreScan(c, count, ttl, turns);
    assert IsTurn(c, count, ttl, turns[|turns| - 1]);
    ScanComplete(c, count, pages, name);
    var i :| 0 <= i < |pages| && name in pages[i].keys;
    assert name in turns[i].page.keys;
  }

  // ---- collection pages ----

  predicate Ascending(names: seq<Bytes>) { forall i, j :: 0 <= i < j < |names| ==> Less(names[i], names[j]) }

  predicate Beyond(from: Option<Bytes>, name: Bytes) { from.None? || Less(from.value, name) }

  ghost predicate IsMemberPage(names: seq<Bytes>, keep: Bytes -> bool, from: Option<Bytes>, count: nat, page: seq<nat>,
                               end: Option<Bytes>) {
    (forall i, j :: 0 <= i < j < |page| ==> page[i] < page[j]) &&
    (forall i :: 0 <= i < |page| ==> page[i] < |names| && keep(names[page[i]]) && Beyond(from, names[page[i]])) &&
    (forall k :: 0 <= k < |names| && keep(names[k]) && Beyond(from, names[k]) && k !in page ==>
      end.Some? && Less(end.value, names[k])) &&
    (end.Some? ==> |page| == count > 0 && page[count - 1] < |names| && end.value == names[page[count - 1]])
  }

  /** sort.SearchStrings: the least index whose name is not below x. */
  method Search(names: seq<Bytes>, x: Bytes) returns (at: nat)
    requires Ascending(names)
    ensures at <= |names|
    ensures forall i :: 0 <= i < at ==> Less(names[i], x)
    ensures forall i :: at <= i < |names| ==> !Less(names[i], x)
  {
    var lo, hi := 0, |names|;
    while lo < hi
      invariant 0 <= lo <= hi <= |names|
      invariant forall i :: 0 <= i < lo ==> Less(names[i], x)
      invariant forall i :: hi <= i < |names| ==> !Less(names[i], x)
    {
      var mid := (lo + hi) / 2;
      if Less(names[mid], x) {
        forall i | 0 <= i < mid ensures Less(names[i], x) { LessTrans(names[i], names[mid], x); }
        lo := mid + 1;
      } else {
        forall i | mid < i < |names| ensures !Less(names[i], x) {
          if Less(names[i], x) { LessTrans(names[mid], names[i], x); }
        }
        hi := mid;
      }
    }
    return lo;
  }

  /** The first index beyond the position. */
  method First(names: seq<Bytes>, from: Option<Bytes>) returns (start: nat)
    requires Ascending(names)
    ensures start <= |names| && forall i :: 0 <= i < |names| ==> (Beyond(from, names[i]) <==> i >= start)
  {
    if from.None? { return 0; }
    start := Search(names, from.value);
    forall i | 0 <= i < |names|
      ensures Less(from.value, names[i]) <==> !Less(names[i], from.value) && names[i] != from.value
    {
      LessTotal(names[i], from.value);
    }
    if start < |names| && names[start] == from.value { start := start + 1; }
  }

  method MemberPage(names: seq<Bytes>, from: Option<Bytes>, count: nat, keep: Bytes -> bool)
    returns (page: seq<nat>, end: Option<Bytes>)
    requires Ascending(names) && count > 0
    ensures IsMemberPage(names, keep, from, count, page, end)
  {
    var start := First(names, from);
    page := [];
    var i := start;
    while i < |names| && |page| < count
      invariant start <= i <= |names| && |page| <= count
      invariant forall j, k :: 0 <= j < k < |page| ==> page[j] < page[k]
      invariant forall j :: 0 <= j < |page| ==> start <= page[j] < i && keep(names[page[j]])
      invariant forall k :: start <= k < i && keep(names[k]) ==> k in page
      invariant |page| == count ==> page[count - 1] == i - 1
    {
      if keep(names[i]) { page := page + [i]; }
      i := i + 1;
    }
    if |page| < count || page[|page| - 1] == |names| - 1 { return page, None; }
    return page, Some(names[page[|page| - 1]]);
  }

  // ---- whole collection scans ----

  datatype MPage = MPage(names: seq<Bytes>, keep: Bytes -> bool, from: Option<Bytes>, page: seq<nat>,
                         end: Option<Bytes>)

  ghost predicate IsMemberScan(count: nat, pages: seq<MPage>) {
    pages != [] && pages[0].from == None &&
    (forall i :: 0 <= i < |pages| ==>
      IsMemberPage(pages[i].names, pages[i].keep, pages[i].from, count, pages[i].page, pages[i].end)) &&
    (forall i :: 0 <= i < |pages| - 1 ==> pages[i].end.Some? && pages[i].end == pages[i + 1].from)
  }

  ghost predicate Shows(p: MPage, member: Bytes) {
    exists i :: 0 <= i < |p.page| && p.page[i] < |p.names| && p.names[p.page[i]] == member
  }

  lemma {:induction false} BeyondUntilShown(count: nat, pages: seq<MPage>, member: Bytes, i: nat)
    requires IsMemberScan(count, pages) && i < |pages|
    requires forall j :: 0 <= j < i ==> member in pages[j].names && pages[j].keep(member) && !Shows(pages[j], member)
    ensures Beyond(pages[i].from, member)
  {
    if i > 0 {
      BeyondUntilShown(count, pages, member, i - 1);
    }
  }

  /** Every matching member there on all pages is returned, whatever else changes between pages. */
  lemma MemberScanComplete(count: nat, pages: seq<MPage>, member: Bytes)
    requires IsMemberScan(count, pages) && pages[|pages| - 1].end.None?
    requires forall i :: 0 <= i < |pages| ==> member in pages[i].names && pages[i].keep(member)
    ensures exists i :: 0 <= i < |pages| && Shows(pages[i], member)
  {
    if forall i :: 0 <= i < |pages| ==> !Shows(pages[i], member) {
      BeyondUntilShown(count, pages, member, |pages| - 1);
    }
  }

  /** Later pages show only members beyond every earlier page's end, so none twice, even when the
      collection changes; and each page before the last shows count of them. */
  lemma {:induction false} MembersNeverRepeat(count: nat, pages: seq<MPage>, i: nat, j: nat, a: Bytes, b: Bytes)
    requires IsMemberScan(count, pages) && i < j < |pages|
    requires forall k :: 0 <= k < |pages| ==> Ascending(pages[k].names)
    requires Shows(pages[i], a) && Shows(pages[j], b)
    ensures Less(a, b) && |pages[i].page| == count
  {
    var p := pages[i];
    assert IsMemberPage(p.names, p.keep, p.from, count, p.page, p.end) && p.end.Some?;
    var x :| 0 <= x < |p.page| && p.page[x] < |p.names| && p.names[p.page[x]] == a;
    assert LessEq(a, p.end.value);
    EndsAscend(count, pages, i, j - 1);
    var q := pages[j];
    assert IsMemberPage(q.names, q.keep, q.from, count, q.page, q.end) && q.from == pages[j - 1].end;
    var y :| 0 <= y < |q.page| && q.page[y] < |q.names| && q.names[q.page[y]] == b;
    LessLeftTrans(a, p.end.value, b) by { if i < j - 1 { LessLeftTrans(p.end.value, q.from.value, b); } }
  }

  lemma {:induction false} EndsAscend(count: nat, pages: seq<MPage>, i: nat, j: nat)
    requires IsMemberScan(count, pages) && i <= j < |pages| - 1
    ensures pages[i].end.Some? && pages[j].end.Some? && LessEq(pages[i].end.value, pages[j].end.value)
  {
    if i < j {
      EndsAscend(count, pages, i, j - 1);
      var p := pages[j];
      assert IsMemberPage(p.names, p.keep, p.from, count, p.page, p.end);
      assert Less(p.from.value, p.names[p.page[count - 1]]);
      LessLeftTrans(pages[i].end.value, pages[j - 1].end.value, p.end.value);
    }
  }

  lemma {:induction false} AscendingGap(page: seq<nat>, lo: nat, k: nat)
    requires k < |page| && (forall i, j :: 0 <= i < j < |page| ==> page[i] < page[j]) && page[0] >= lo
    ensures page[k] >= lo + k
  {
    if k > 0 { AscendingGap(page, lo, k - 1); }
  }

  lemma LaterIndex(names: seq<Bytes>, i: nat, j: nat)
    requires Ascending(names) && i < |names| && j < |names| && Less(names[i], names[j])
    ensures i < j
  {
    LessTotal(names[i], names[j]);
  }

  lemma NextMultiple(n: nat, count: nat)
    ensures n * count == (n - 1) * count + count
  {}

  /** On an unchanged collection the scan ends: n pages that are not the last use up n * count members. */
  lemma {:induction false} MemberScanEnds(count: nat, pages: seq<MPage>, names: seq<Bytes>, n: nat)
    requires IsMemberScan(count, pages) && Ascending(names) && 0 < n <= |pages|
    requires forall i :: 0 <= i < n ==> pages[i].names == names && pages[i].end.Some?
    ensures |pages[n - 1].page| == count > 0 && n * count <= pages[n - 1].page[count - 1] + 1 <= |names|
  {
    var p := pages[n - 1];
    assert IsMemberPage(p.names, p.keep, p.from, count, p.page, p.end);
    if n == 1 {
      AscendingGap(p.page, 0, count - 1);
    } else {
      MemberScanEnds(count, pages, names, n - 1);
      var q := pages[n - 2];
      assert IsMemberPage(q.names, q.keep, q.from, count, q.page, q.end) && q.end == p.from;
      var e := q.page[count - 1];
      LaterIndex(names, e, p.page[0]);
      AscendingGap(p.page, e + 1, count - 1);
      NextMultiple(n, count);
    }
  }

  // ---- following a collection's cursors ----

  ghost predicate MembersFollowed(count: nat, ttl: int, db: nat, key: Bytes, turns: seq<MTurn>) {
    && turns != [] && turns[0].cursor == 0
    && (forall i :: 0 <= i < |turns| ==> IsMTurn(count, ttl, db, key, turns[i]))
    && (forall i :: 0 <= i < |turns| - 1 ==> MemberFollows(turns[i], turns[i + 1], ttl))
  }

  predicate MemberFollows(u: MTurn, v: MTurn, ttl: int) {
    && u.next != 0 && v.cursor == u.next && v.now < u.now + ttl
    && u.next in u.after && u.next in v.before && v.before[u.next] == u.after[u.next]
  }

  function MPages(turns: seq<MTurn>): seq<MPage> { seq(|turns|, i requires 0 <= i < |turns| => turns[i].page) }

  /** Following the cursors of one collection is a member scan. */
  lemma TurnsAreMemberScan(count: nat, ttl: int, db: nat, key: Bytes, turns: seq<MTurn>)
    requires MembersFollowed(count, ttl, db, key, turns)
    ensures IsMemberScan(count, MPages(turns))
  {
    var pages := MPages(turns);
    forall i | 0 <= i < |pages| - 1 ensures pages[i].end.Some? && pages[i].end == pages[i + 1].from {
      var u, v := turns[i], turns[i + 1];
      assert IsMTurn(count, ttl, db, key, u) && MemberFollows(u, v, ttl) && IsMTurn(count, ttl, db, key, v);
      assert u.next in Live(v.before, v.now);
    }
  }

  /** HSCAN, SSCAN or ZSCAN called until cursor 0 returns every member that was there and matched on every call. */
  lemma CommandMembersComplete(count: nat, ttl: int, db: nat, key: Bytes, turns: seq<MTurn>, member: Bytes)
    requires MembersFollowed(count, ttl, db, key, turns) && turns[|turns| - 1].next == 0
    requires forall i :: 0 <= i < |turns| ==> member in turns[i].page.names && turns[i].page.keep(member)
    ensures exists i :: 0 <= i < |turns| && Shows(turns[i].page, member)
  {
    var pages := MPages(turns);
    TurnsAreMemberScan(count, ttl, db, key, turns);
    assert IsMTurn(count, ttl, db, key, turns[|turns| - 1]);
    MemberScanComplete(count, pages, member);
    var i :| 0 <= i < |pages| && Shows(pages[i], member);
    assert Shows(turns[i].page, member);
  }
}
