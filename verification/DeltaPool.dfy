/** The pool of active delta pages: a fixed array of page objects, a queue of free ones, and
    a file with one fixed place per page id. As a value, with its runs; the class is in
    ActiveDeltaPages. */
module DeltaPool {
  import opened Types
  import opened Chains
  import opened Fields
  import opened DeltaCodec

  /** cache maps a page id to its place in the pool, offsets to its place in the file. */
  datatype Pool = Pool(pages: seq<DeltaPage>, free: seq<nat>, cache: map<Bytes, nat>,
                       offsets: map<Bytes, nat>, disk: Bytes)

  const FRESH := DeltaPage([], NO_PAGE, 0, 0)

  function NewPool(size: nat): Pool {
    Pool(seq(size, i => FRESH), seq(size, i => i), map[], map[], [])
  }

  /* ---- The file ---- */

  predicate Placed(s: Pool, pid: Bytes)
    requires pid in s.offsets
  {
    s.offsets[pid] % PAGE_SIZE == 0 && s.offsets[pid] + PAGE_SIZE <= |s.disk|
  }

  function BytesAt(s: Pool, pid: Bytes): Bytes
    requires pid in s.offsets && Placed(s, pid)
  {
    s.disk[s.offsets[pid]..s.offsets[pid] + PAGE_SIZE]
  }

  /** readFromDisk, or the page a failed read makes. A page object taken from the pool keeps
      its b_update_count_ in the second case. */
  function OnDisk(s: Pool, pid: Bytes, bcount: nat): DeltaPage {
    if pid in s.offsets && Placed(s, pid) then
      match ParseDelta(BytesAt(s, pid))
      case Ok(r, _) => r.1
      case Fail => FRESH
    else FRESH.(bcount := bcount)
  }

  /* ---- Operations ---- */

  /** One round of evictIfNeeded: the victim's object is cleared and queued as free. */
  function EvictOne(s: Pool, victim: Bytes): Pool
    requires victim in s.cache && s.cache[victim] < |s.pages|
  {
    var i := s.cache[victim];
    s.(pages := s.pages[i := s.pages[i].(items := [], count := 0)], free := s.free + [i], cache := s.cache - {victim})
  }

  /** Filling the free object at the head of the queue. */
  function Fill(s: Pool, pid: Bytes): Pool
    requires s.free != [] && s.free[0] < |s.pages|
  {
    var i := s.free[0];
    s.(pages := s.pages[i := OnDisk(s, pid, s.pages[i].bcount)], free := s.free[1..], cache := s.cache[pid := i])
  }

  /** Get: the pool position of the page, read into a free object if it was not there. */
  function Get(s: Pool, pid: Bytes, victim: Bytes): (r: Option<(nat, Pool)>) {
    if pid in s.cache then Some((s.cache[pid], s))
    else
      var full := |s.cache| >= |s.pages|;
      if full && !(victim in s.cache && s.cache[victim] < |s.pages|) then None
      else
        var s1 := if full then EvictOne(s, victim) else s;
        if s1.free == [] || s1.free[0] >= |s1.pages| then None
        else
          Some((s1.free[0], Fill(s1, pid)))
  }

  /** The client changes the page object it was given. */
  function Change(s: Pool, i: nat, d: DeltaPage): Pool
    requires i < |s.pages|
  {
    s.(pages := s.pages[i := d])
  }

  /** Store, that is writePageToDisk: to the page's place in the file, or at its end. None
      stands for the overflow error. */
  function Store(s: Pool, pid: Bytes): Option<Pool> {
    if pid !in s.cache || s.cache[pid] >= |s.pages| then None
    else match PrintDelta(pid, s.pages[s.cache[pid]])
         case None => None
         case Some(bytes) =>
           if pid in s.offsets && Placed(s, pid) then
             var at := s.offsets[pid];
             Some(s.(disk := s.disk[..at] + bytes + s.disk[at + PAGE_SIZE..]))
           else Some(s.(offsets := s.offsets[pid := |s.disk|], disk := s.disk + bytes))
  }

  /* ---- The invariant ---- */

  /** The free queue and the cached places partition the pool. */
  ghost predicate Partition(s: Pool) {
    |s.free| + |s.cache| == |s.pages| && FreeOnce(s.free, |s.pages|) &&
    CachedOnce(s.cache, s.free, |s.pages|) && Covered(s.free, s.cache, |s.pages|)
  }

  ghost predicate FreeOnce(free: seq<nat>, n: nat) {
    (forall x :: 0 <= x < |free| ==> free[x] < n) &&
    forall x, y :: 0 <= x < y < |free| ==> free[x] != free[y]
  }

  ghost predicate CachedOnce(cache: map<Bytes, nat>, free: seq<nat>, n: nat) {
    (forall p :: p in cache ==> cache[p] < n && cache[p] !in free) &&
    forall p, q :: p in cache && q in cache && p != q ==> cache[p] != cache[q]
  }

  ghost predicate Covered(free: seq<nat>, cache: map<Bytes, nat>, n: nat) {
    forall i :: 0 <= i < n ==> i in free || Cached(cache, i)
  }

  ghost predicate Cached(cache: map<Bytes, nat>, i: nat) {
    exists p :: p in cache && cache[p] == i
  }

  /** Places in the file lie inside it, on page boundaries, and never overlap. */
  ghost predicate Places(s: Pool) {
    && |s.disk| % PAGE_SIZE == 0
    && (forall p :: p in s.offsets ==> Placed(s, p))
    && (forall p, q :: p in s.offsets && q in s.offsets && p != q ==>
          s.offsets[p] + PAGE_SIZE <= s.offsets[q] || s.offsets[q] + PAGE_SIZE <= s.offsets[p])
  }

  /** What storing and reading back makes of a page; b_update_count_ is not compared. */
  ghost predicate Reads(d: DeltaPage, from: DeltaPage) {
    d.items == Map(ItemBack, from.items) && d.last == from.last && d.count == from.count
  }

  /** The file holds the page that was last stored under pid, or nothing before that. */
  ghost predicate Holds(s: Pool, last: map<Bytes, DeltaPage>, pid: Bytes) {
    (pid in s.offsets <==> pid in last) && Reads(OnDisk(s, pid, 0), LastOf(last, pid))
  }

  function LastOf(last: map<Bytes, DeltaPage>, pid: Bytes): DeltaPage {
    if pid in last then last[pid] else FRESH
  }

  /** A page in the pool is the one last stored, possibly after a round trip through the file. */
  ghost predicate Settled(d: DeltaPage, from: DeltaPage) {
    (d.items == from.items || d.items == Map(ItemBack, from.items)) && d.last == from.last && d.count == from.count
  }

  ghost predicate AllHold(s: Pool, last: map<Bytes, DeltaPage>) {
    forall p :: Holds(s, last, p)
  }

  ghost predicate AllSettled(pages: seq<DeltaPage>, cache: map<Bytes, nat>, last: map<Bytes, DeltaPage>) {
    forall p :: p in cache ==> cache[p] < |pages| && Settled(pages[cache[p]], LastOf(last, p))
  }

  ghost predicate Inv(s: Pool, last: map<Bytes, DeltaPage>) {
    |s.pages| > 0 && Partition(s) && Places(s) && AllHold(s, last) && AllSettled(s.pages, s.cache, last)
  }

  /* ---- Steps ---- */

  lemma NewPoolInv(size: nat)
    requires size > 0
    ensures Inv(NewPool(size), map[])
  {
    var s := NewPool(size);
    assert |s.cache| == 0;
    forall i | 0 <= i < size ensures i in s.free { assert s.free[i] == i; }
    forall p ensures Holds(s, map[], p) { assert Map(ItemBack, []) == []; }
  }

  lemma RemoveSize(cache: map<Bytes, nat>, p: Bytes)
    requires p in cache
    ensures |cache - {p}| == |cache| - 1
  {
    assert (cache - {p}).Keys == cache.Keys - {p};
    assert |cache.Keys| == |cache| && |(cache - {p}).Keys| == |cache - {p}|;
  }

  lemma AddSize(cache: map<Bytes, nat>, p: Bytes, i: nat)
    requires p !in cache
    ensures |cache[p := i]| == |cache| + 1
  {
    assert cache[p := i].Keys == cache.Keys + {p};
    assert |cache.Keys| == |cache| && |cache[p := i].Keys| == |cache[p := i]|;
  }

  lemma EvictCovered(free: seq<nat>, cache: map<Bytes, nat>, n: nat, victim: Bytes)
    requires Covered(free, cache, n) && victim in cache
    ensures Covered(free + [cache[victim]], cache - {victim}, n)
  {
    var free', cache' := free + [cache[victim]], cache - {victim};
    forall i | 0 <= i < n ensures i in free' || Cached(cache', i) {
      if i == cache[victim] {
        assert free'[|free|] == i;
      } else if i !in free {
        var p :| p in cache && cache[p] == i;
        assert p in cache' && cache'[p] == i;
      }
    }
  }

  lemma EvictOnce(free: seq<nat>, cache: map<Bytes, nat>, n: nat, victim: Bytes)
    requires FreeOnce(free, n) && CachedOnce(cache, free, n) && victim in cache
    ensures FreeOnce(free + [cache[victim]], n)
    ensures CachedOnce(cache - {victim}, free + [cache[victim]], n)
  {
    var free' := free + [cache[victim]];
    forall x, y | 0 <= x < y < |free'| ensures free'[x] != free'[y] {
      if y == |free| { assert free[x] in free; }
    }
  }

  lemma EvictPartition(s: Pool, victim: Bytes)
    requires Partition(s) && victim in s.cache
    ensures Partition(EvictOne(s, victim))
  {
    RemoveSize(s.cache, victim);
    EvictOnce(s.free, s.cache, |s.pages|, victim);
    EvictCovered(s.free, s.cache, |s.pages|, victim);
  }

  lemma EvictKeeps(s: Pool, last: map<Bytes, DeltaPage>, victim: Bytes)
    requires Inv(s, last) && victim in s.cache
    ensures Inv(EvictOne(s, victim), last)
  {
    EvictPartition(s, victim);
    SameFileHolds(s, EvictOne(s, victim), last);
  }

  lemma SameFileHolds(s: Pool, s': Pool, last: map<Bytes, DeltaPage>)
    requires s'.offsets == s.offsets && s'.disk == s.disk && AllHold(s, last)
    ensures AllHold(s', last)
  {
    forall p ensures Holds(s', last, p) {
      assert Holds(s, last, p);
    }
  }

  lemma TakeCovered(free: seq<nat>, cache: map<Bytes, nat>, n: nat, pid: Bytes)
    requires Covered(free, cache, n) && free != [] && pid !in cache
    ensures Covered(free[1..], cache[pid := free[0]], n)
  {
    var cache' := cache[pid := free[0]];
    forall i | 0 <= i < n ensures i in free[1..] || Cached(cache', i) {
      if i == free[0] {
        assert cache'[pid] == i;
      } else if i in free {
        var x :| 0 <= x < |free| && free[x] == i;
        assert free[1..][x - 1] == i;
      } else {
        var p :| p in cache && cache[p] == i;
        assert p in cache' && cache'[p] == i;
      }
    }
  }

  lemma TakeFreePartition(s: Pool, pid: Bytes, d: DeltaPage)
    requires Partition(s) && pid !in s.cache && s.free != []
    ensures var i := s.free[0];
            i < |s.pages| &&
            Partition(s.(pages := s.pages[i := d], free := s.free[1..], cache := s.cache[pid := i]))
  {
    AddSize(s.cache, pid, s.free[0]);
    TakeCovered(s.free, s.cache, |s.pages|, pid);
  }

  /** With room in the cache Get finds a free object, and the page in it is the one last
      stored. */
  lemma FillKeeps(s: Pool, last: map<Bytes, DeltaPage>, pid: Bytes)
    requires Inv(s, last) && pid !in s.cache && |s.cache| < |s.pages|
    ensures s.free != [] && s.free[0] < |s.pages| && Inv(Fill(s, pid), last)
  {
    var bcount := s.pages[s.free[0]].bcount;
    TakeFreePartition(s, pid, OnDisk(s, pid, bcount));
    assert Holds(s, last, pid);
    SameFileHolds(s, Fill(s, pid), last);
  }

  /** Get never fails, whichever page it evicts, and yields what was last stored under the
      page id, or a page without items. */
  lemma GetKeeps(s: Pool, last: map<Bytes, DeltaPage>, pid: Bytes, victim: Bytes)
    requires Inv(s, last) && (|s.cache| >= |s.pages| ==> victim in s.cache)
    ensures var r := Get(s, pid, victim);
            r.Some? && r.value.0 < |r.value.1.pages| && Inv(r.value.1, last) &&
            pid in r.value.1.cache && r.value.1.cache[pid] == r.value.0 &&
            Settled(r.value.1.pages[r.value.0], LastOf(last, pid))
  {
    if pid !in s.cache {
      if |s.cache| >= |s.pages| {
        EvictKeeps(s, last, victim);
        RemoveSize(s.cache, victim);
        FillKeeps(EvictOne(s, victim), last, pid);
      } else {
        FillKeeps(s, last, pid);
      }
    }
  }

  /* ---- Storing ---- */

  /** The effect of Store on the file. */
  ghost predicate Written(s: Pool, s': Pool, pid: Bytes, bytes: Bytes) {
    && s' == s.(offsets := s'.offsets, disk := s'.disk)
    && Places(s') && s'.offsets.Keys == s.offsets.Keys + {pid}
    && BytesAt(s', pid) == bytes
    && forall p :: p in s.offsets && p != pid ==> Placed(s, p) && BytesAt(s', p) == BytesAt(s, p)
  }

  lemma StoreInPlace(s: Pool, pid: Bytes, bytes: Bytes)
    requires Places(s) && |bytes| == PAGE_SIZE && pid in s.offsets
    ensures var at := s.offsets[pid];
            Written(s, s.(disk := s.disk[..at] + bytes + s.disk[at + PAGE_SIZE..]), pid, bytes)
  {
    var at := s.offsets[pid];
    assert Placed(s, pid);
    var s' := s.(disk := s.disk[..at] + bytes + s.disk[at + PAGE_SIZE..]);
    assert |s'.disk| == |s.disk|;
    assert s'.disk[at..at + PAGE_SIZE] == bytes;
    forall p | p in s.offsets ensures Placed(s', p) { assert Placed(s, p); }
    forall p | p in s.offsets && p != pid ensures Placed(s, p) && Placed(s', p) && BytesAt(s', p) == BytesAt(s, p) {
    }
    assert s'.offsets.Keys == s.offsets.Keys + {pid};
  }

  lemma NextBoundary(n: nat)
    requires n % PAGE_SIZE == 0
    ensures (n + PAGE_SIZE) % PAGE_SIZE == 0
  {
  }

  lemma EndPlaces(s: Pool, pid: Bytes, bytes: Bytes)
    requires Places(s) && |bytes| == PAGE_SIZE && pid !in s.offsets
    ensures Places(s.(offsets := s.offsets[pid := |s.disk|], disk := s.disk + bytes))
  {
    var s' := s.(offsets := s.offsets[pid := |s.disk|], disk := s.disk + bytes);
    NextBoundary(|s.disk|);
    forall p | p in s'.offsets ensures Placed(s', p) { if p != pid { assert Placed(s, p); } }
    forall p, q | p in s'.offsets && q in s'.offsets && p != q
      ensures s'.offsets[p] + PAGE_SIZE <= s'.offsets[q] || s'.offsets[q] + PAGE_SIZE <= s'.offsets[p]
    {
      if p == pid { assert Placed(s, q); } else if q == pid { assert Placed(s, p); }
    }
  }

  lemma StoreAtEnd(s: Pool, pid: Bytes, bytes: Bytes)
    requires Places(s) && |bytes| == PAGE_SIZE && pid !in s.offsets
    ensures Written(s, s.(offsets := s.offsets[pid := |s.disk|], disk := s.disk + bytes), pid, bytes)
  {
    var s' := s.(offsets := s.offsets[pid := |s.disk|], disk := s.disk + bytes);
    EndPlaces(s, pid, bytes);
    assert Placed(s', pid);
    assert s'.disk[|s.disk|..|s.disk| + PAGE_SIZE] == bytes;
    forall p | p in s.offsets && p != pid ensures Placed(s, p) && Placed(s', p) && BytesAt(s', p) == BytesAt(s, p) {
      assert Placed(s, p) && Placed(s', p);
    }
    assert s'.offsets.Keys == s.offsets.Keys + {pid};
  }

  lemma WrittenHolds(s: Pool, s': Pool, last: map<Bytes, DeltaPage>, pid: Bytes, d: DeltaPage, p: Bytes)
    requires DeltaFits(pid, d) && PrintDelta(pid, d).Some? && Written(s, s', pid, PrintDelta(pid, d).value)
    requires Places(s) && Holds(s, last, p)
    ensures Holds(s', last[pid := d], p)
  {
    if p == pid {
      DeltaRoundTrip(pid, d);
    }
  }

  lemma StoreWrites(s: Pool, pid: Bytes)
    requires Places(s) && pid in s.cache && s.cache[pid] < |s.pages|
    requires PrintDelta(pid, s.pages[s.cache[pid]]).Some?
    ensures Store(s, pid).Some?
    ensures Written(s, Store(s, pid).value, pid, PrintDelta(pid, s.pages[s.cache[pid]]).value)
  {
    var bytes := PrintDelta(pid, s.pages[s.cache[pid]]).value;
    if pid in s.offsets {
      assert Placed(s, pid);
      StoreInPlace(s, pid, bytes);
    } else {
      StoreAtEnd(s, pid, bytes);
    }
  }

  lemma StoreSettled(s: Pool, last: map<Bytes, DeltaPage>, pid: Bytes, d: DeltaPage)
    requires Partition(s) && pid in s.cache && AllSettled(s.pages, s.cache, last)
    ensures AllSettled(Change(s, s.cache[pid], d).pages, s.cache, last[pid := d])
  {
  }

  lemma StoreHolds(s: Pool, s': Pool, last: map<Bytes, DeltaPage>, pid: Bytes, d: DeltaPage)
    requires DeltaFits(pid, d) && PrintDelta(pid, d).Some? && Written(s, s', pid, PrintDelta(pid, d).value)
    requires Places(s) && AllHold(s, last)
    ensures AllHold(s', last[pid := d])
  {
    var last' := last[pid := d];
    forall p ensures Holds(s', last', p) {
      assert Holds(s, last, p);
      WrittenHolds(s, s', last, pid, d, p);
    }
  }

  /** Storing a changed page records it; nothing else moves. */
  lemma StoreKeeps(s: Pool, last: map<Bytes, DeltaPage>, pid: Bytes, d: DeltaPage)
    requires Inv(s, last) && pid in s.cache && DeltaFits(pid, d) && PrintDelta(pid, d).Some?
    ensures s.cache[pid] < |s.pages|
    ensures var r := Store(Change(s, s.cache[pid], d), pid); r.Some? && Inv(r.value, last[pid := d])
  {
    var s1 := Change(s, s.cache[pid], d);
    SameFileHolds(s, s1, last);
    StoreSettled(s, last, pid, d);
    StoreChanged(s1, last, pid, d);
  }

  lemma StoreChanged(s: Pool, last: map<Bytes, DeltaPage>, pid: Bytes, d: DeltaPage)
    requires |s.pages| > 0 && Partition(s) && Places(s) && AllHold(s, last)
    requires pid in s.cache && s.pages[s.cache[pid]] == d && DeltaFits(pid, d) && PrintDelta(pid, d).Some?
    requires AllSettled(s.pages, s.cache, last[pid := d])
    ensures var r := Store(s, pid); r.Some? && Inv(r.value, last[pid := d])
  {
    StoreWrites(s, pid);
    var s' := Store(s, pid).value;
    StoreHolds(s, s', last, pid, d);
  }

  /* ---- Runs ---- */

  /** Reading a page, or reading, changing and storing it; victim is what is evicted if
      the pool is full. */
  datatype Op = Read(pid: Bytes, victim: Bytes) | Write(pid: Bytes, victim: Bytes, page: DeltaPage)

  ghost predicate Enabled(s: Pool, op: Op) {
    (|s.cache| >= |s.pages| ==> op.victim in s.cache) &&
    (op.Write? ==> DeltaFits(op.pid, op.page) && PrintDelta(op.pid, op.page).Some?)
  }

  function Apply(s: Pool, op: Op): Pool {
    match Get(s, op.pid, op.victim)
    case None => s
    case Some(r) =>
      if op.Read? || r.0 >= |r.1.pages| then r.1
      else match Store(Change(r.1, r.0, op.page), op.pid)
           case Some(s') => s'
           case None => r.1
  }

  function LastStored(last: map<Bytes, DeltaPage>, op: Op): map<Bytes, DeltaPage> {
    if op.Write? then last[op.pid := op.page] else last
  }

  lemma ApplyKeeps(s: Pool, last: map<Bytes, DeltaPage>, op: Op)
    requires Inv(s, last) && Enabled(s, op)
    ensures Inv(Apply(s, op), LastStored(last, op))
  {
    GetKeeps(s, last, op.pid, op.victim);
    var s1 := Get(s, op.pid, op.victim).value.1;
    if op.Write? {
      StoreKeeps(s1, last, op.pid, op.page);
      assert Apply(s, op) == Store(Change(s1, s1.cache[op.pid], op.page), op.pid).value;
    }
  }

  function StateAfter(size: nat, ops: seq<Op>): Pool {
    if ops == [] then NewPool(size) else Apply(StateAfter(size, ops[..|ops| - 1]), ops[|ops| - 1])
  }

  function LastAfter(ops: seq<Op>): map<Bytes, DeltaPage> {
    if ops == [] then map[] else LastStored(LastAfter(ops[..|ops| - 1]), ops[|ops| - 1])
  }

  ghost predicate IsRun(size: nat, ops: seq<Op>) {
    ops == [] || (IsRun(size, ops[..|ops| - 1]) && Enabled(StateAfter(size, ops[..|ops| - 1]), ops[|ops| - 1]))
  }

  lemma {:induction false} RunKeeps(size: nat, ops: seq<Op>)
    requires size > 0 && IsRun(size, ops)
    ensures Inv(StateAfter(size, ops), LastAfter(ops))
  {
    if ops == [] {
      NewPoolInv(size);
    } else {
      RunKeeps(size, ops[..|ops| - 1]);
      ApplyKeeps(StateAfter(size, ops[..|ops| - 1]), LastAfter(ops[..|ops| - 1]), ops[|ops| - 1]);
    }
  }

  /** After any interleaving of reads, stores and evictions Get finds a place, and yields the
      items, the last page key and the count last stored under the page id, or none. */
  lemma GetAfterRun(size: nat, ops: seq<Op>, pid: Bytes, victim: Bytes)
    requires size > 0 && IsRun(size, ops)
    requires var s := StateAfter(size, ops); |s.cache| >= |s.pages| ==> victim in s.cache
    ensures var r := Get(StateAfter(size, ops), pid, victim);
            r.Some? && r.value.0 < |r.value.1.pages| &&
            Settled(r.value.1.pages[r.value.0], LastOf(LastAfter(ops), pid))
  {
    RunKeeps(size, ops);
    GetKeeps(StateAfter(size, ops), LastAfter(ops), pid, victim);
  }

  /* ---- Pages that stay in the pool ---- */

  /** The page object of a page id, if it has one in the pool. */
  function PageIn(s: Pool, pid: Bytes): Option<DeltaPage> {
    if pid in s.cache && s.cache[pid] < |s.pages| then Some(s.pages[s.cache[pid]]) else None
  }

  lemma EvictLeaves(s: Pool, victim: Bytes, pid: Bytes)
    requires CachedOnce(s.cache, s.free, |s.pages|) && victim in s.cache && pid in s.cache && pid != victim
    ensures PageIn(EvictOne(s, victim), pid) == PageIn(s, pid) && pid in EvictOne(s, victim).cache
  {
  }

  lemma FillLeaves(s: Pool, p: Bytes, pid: Bytes)
    requires CachedOnce(s.cache, s.free, |s.pages|) && pid in s.cache && pid != p
    requires s.free != [] && s.free[0] < |s.pages|
    ensures PageIn(Fill(s, p), pid) == PageIn(s, pid)
  {
    assert s.free[0] in s.free;
  }

  lemma GetLeaves(s: Pool, p: Bytes, victim: Bytes, pid: Bytes)
    requires Partition(s) && Get(s, p, victim).Some? && pid in s.cache && pid in Get(s, p, victim).value.1.cache
    ensures PageIn(Get(s, p, victim).value.1, pid) == PageIn(s, pid)
  {
    if p !in s.cache {
      var s1 := s;
      if |s.cache| >= |s.pages| {
        s1 := EvictOne(s, victim);
        EvictPartition(s, victim);
        if pid != victim { EvictLeaves(s, victim, pid); }
      }
      if pid in s1.cache { FillLeaves(s1, p, pid); }
    }
  }

  /** An operation gets the page into the pool, and a write changes it there. */
  lemma ApplyPages(s: Pool, last: map<Bytes, DeltaPage>, op: Op) returns (s1: Pool)
    requires Inv(s, last) && Enabled(s, op)
    ensures Get(s, op.pid, op.victim).Some? && s1 == Get(s, op.pid, op.victim).value.1 && Partition(s1)
    ensures op.pid in s1.cache && s1.cache[op.pid] < |s1.pages| && Apply(s, op).cache == s1.cache
    ensures Apply(s, op).pages == if op.Write? then s1.pages[s1.cache[op.pid] := op.page] else s1.pages
  {
    GetKeeps(s, last, op.pid, op.victim);
    s1 := Get(s, op.pid, op.victim).value.1;
    if op.Write? { StoreKeeps(s1, last, op.pid, op.page); }
  }

  lemma WriteIsWhole(s: Pool, last: map<Bytes, DeltaPage>, op: Op)
    requires Inv(s, last) && Enabled(s, op) && op.Write?
    ensures PageIn(Apply(s, op), op.pid) == Some(op.page)
  {
    var s1 := ApplyPages(s, last, op);
  }

  /** What is done to other page ids leaves it alone, and so does reading it. */
  lemma OthersLeave(s: Pool, last: map<Bytes, DeltaPage>, op: Op, pid: Bytes)
    requires Inv(s, last) && Enabled(s, op) && pid in s.cache && pid in Apply(s, op).cache
    requires op.Write? ==> op.pid != pid
    ensures PageIn(Apply(s, op), pid) == PageIn(s, pid)
  {
    var s1 := ApplyPages(s, last, op);
    GetLeaves(s, op.pid, op.victim, pid);
  }

  /** As long as it is not evicted, a page comes back as it was stored, its base count
      included. */
  lemma StaysWhole(size: nat, ops: seq<Op>, n: nat, victim: Bytes)
    requires size > 0 && IsRun(size, ops) && n < |ops| && ops[n].Write?
    requires forall j :: n < j < |ops| && ops[j].Write? ==> ops[j].pid != ops[n].pid
    requires forall m :: n < m <= |ops| ==> ops[n].pid in StateAfter(size, ops[..m]).cache
    ensures var r := Get(StateAfter(size, ops), ops[n].pid, victim);
            r.Some? && r.value.0 < |r.value.1.pages| && r.value.1.pages[r.value.0] == ops[n].page
  {
    assert ops[..|ops|] == ops;
    WholeAfter(size, ops, n);
  }

  lemma StaysBefore(size: nat, ops: seq<Op>, n: nat)
    requires n < |ops| - 1 && forall m :: n < m <= |ops| ==> ops[n].pid in StateAfter(size, ops[..m]).cache
    ensures var before := ops[..|ops| - 1];
            ops[n].pid in StateAfter(size, before).cache && ops[n].pid in StateAfter(size, ops).cache &&
            forall m :: n < m <= |before| ==> ops[n].pid in StateAfter(size, before[..m]).cache
  {
    var before := ops[..|ops| - 1];
    assert ops[..|ops|] == ops && ops[..|before|] == before;
    forall m | n < m <= |before| ensures ops[n].pid in StateAfter(size, before[..m]).cache {
      assert before[..m] == ops[..m];
    }
  }

  lemma {:induction false} WholeAfter(size: nat, ops: seq<Op>, n: nat)
    requires size > 0 && IsRun(size, ops) && n < |ops| && ops[n].Write?
    requires forall j :: n < j < |ops| && ops[j].Write? ==> ops[j].pid != ops[n].pid
    requires forall m :: n < m <= |ops| ==> ops[n].pid in StateAfter(size, ops[..m]).cache
    ensures PageIn(StateAfter(size, ops), ops[n].pid) == Some(ops[n].page)
    decreases |ops|
  {
    var before, op := ops[..|ops| - 1], ops[|ops| - 1];
    RunKeeps(size, before);
    if n == |ops| - 1 {
      WriteIsWhole(StateAfter(size, before), LastAfter(before), op);
    } else {
      StaysBefore(size, ops, n);
      WholeAfter(size, before, n);
      OthersLeave(StateAfter(size, before), LastAfter(before), op, ops[n].pid);
    }
  }
}
