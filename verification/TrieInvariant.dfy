/** The run invariant of the whole trie against the simple store. */
module TrieInvariant {
  import opened Types
  import opened Pages
  import opened Replays
  import opened Chains
  import opened ChainInvariant
  import opened PageCommits
  import opened Loads
  import opened ValueLog
  import opened History
  import opened PageSpecs
  import opened TrieState

  /** For each page id, the pages left by the commits that touched it. */
  type Snaps = map<Path, map<nat, Page>>

  const NO_SNAPS: Snaps := map[]

  function SnapsOf(g: Snaps, pid: Path): map<nat, Page> {
    if pid in g then g[pid] else map[]
  }

  /** A cached page is the snapshot it is keyed by, unless its version had been lost. */
  ghost predicate CacheInv(p: Page, c: Chain, snaps: map<nat, Page>, v: nat, loss: Loss) {
    v <= c.cur && (Recoverable(c, v) ==> (v in snaps || v == 0) && Same(p, At(snaps, v), loss))
  }

  ghost predicate CacheOK(cache: map<CacheKey, Page>, pid: Path, c: Chain, snaps: map<nat, Page>, loss: Loss) {
    forall v :: CacheKey(v, pid) in cache ==> CacheInv(cache[CacheKey(v, pid)], c, snaps, v, loss)
  }

  ghost predicate SnapKeys(h: seq<Commit>, pid: Path, snaps: map<nat, Page>) {
    forall v: nat :: v in snaps <==> TouchedAt(h, pid, v)
  }

  ghost predicate SnapSpecs(H: Hash, L: nat, h: seq<Commit>, log: Log, pid: Path, snaps: map<nat, Page>, loss: Loss) {
    forall v: nat :: v in snaps ==> PageSpec(H, L, Upto(h, v), log, pid, snaps[v], loss)
  }

  /** The snapshots of a page id are those the simple store prescribes. */
  ghost predicate SnapsOK(H: Hash, L: nat, h: seq<Commit>, log: Log, pid: Path, snaps: map<nat, Page>, loss: Loss) {
    Stamped(snaps) && SnapKeys(h, pid, snaps) && SnapSpecs(H, L, h, log, pid, snaps, loss)
  }

  ghost predicate PageOK(H: Hash, L: nat, c: Chain, snaps: map<nat, Page>, cache: map<CacheKey, Page>, log: Log,
                         h: seq<Commit>, pid: Path, loss: Loss)
  {
    && Inv(c, snaps, Kind(L, pid), c.cur, loss) && Counters(c)
    && c.cur == LastTouch(h, pid)
    && SnapsOK(H, L, h, log, pid, snaps, loss)
    && CacheOK(cache, pid, c, snaps, loss)
  }

  ghost predicate PageInv(H: Hash, L: nat, s: State, g: Snaps, h: seq<Commit>, pid: Path, loss: Loss) {
    PageOK(H, L, ChainOf(s, pid), SnapsOf(g, pid), s.cache, s.log, h, pid, loss)
  }

  ghost predicate TrieInv(H: Hash, L: nat, s: State, g: Snaps, h: seq<Commit>, loss: Loss) {
    && ValidHistory(h, L)
    && (forall k :: k in s.put ==> |k| == L)
    && forall pid :: PageId(L, pid) ==> PageInv(H, L, s, g, h, pid, loss)
  }

  /* ---- Facts about one page id ---- */

  lemma TouchedBound(h: seq<Commit>, L: nat, p: Path, v: nat)
    requires ValidHistory(h, L) && TouchedAt(h, p, v)
    ensures v <= LastTouch(h, p)
    decreases |h|
  {
    if h != [] && Latest(h) > v {
      ValidPrefix(h, L);
      TouchedBound(h[..|h| - 1], L, p, v);
      TouchIsWritten(h[..|h| - 1], p, L);
      assert |h| > 1 ==> h[..|h| - 1][|h| - 2] == h[|h| - 2];
    }
  }

  /** The newest snapshot sits at the last touch. */
  lemma NewestSnap(H: Hash, L: nat, c: Chain, snaps: map<nat, Page>, h: seq<Commit>, log: Log, pid: Path, loss: Loss)
    requires PageId(L, pid) && ValidHistory(h, L) && SnapsOK(H, L, h, log, pid, snaps, loss)
    ensures var u := LastTouch(h, pid);
            (forall v :: v in snaps ==> v <= u) && (u > 0 ==> u in snaps) && (u == 0 ==> snaps == map[])
  {
    forall v | v in snaps ensures 0 < v <= LastTouch(h, pid) { TouchedBound(h, L, pid, v); }
    if LastTouch(h, pid) > 0 { LastTouchTouched(h, pid, L); }
    assert forall v :: v in snaps ==> 0 < v <= LastTouch(h, pid);
  }

  /** What a page held when it was last touched, it holds still. */
  lemma SpecSince(H: Hash, L: nat, h: seq<Commit>, log: Log, pid: Path, p: Page, loss: Loss)
    requires PageId(L, pid) && ValidHistory(h, L)
    requires PageSpec(H, L, Upto(h, LastTouch(h, pid)), log, pid, p, loss)
    ensures PageSpec(H, L, h, log, pid, p, loss)
  {
    var n := Kind(L, pid);
    if n == 0 { LeafSince(H, L, h, log, pid, pid, p.root.value, loss); }
    forall i: Nibble | n > 0
      ensures Touches(Contents(Upto(h, LastTouch(h, pid))), pid + [i]) == Touches(Contents(h), pid + [i])
    {
      TouchSince(L, h, pid, pid + [i]);
    }
    forall i: Nibble | n == 1 && i in p.kids
      ensures pid + [i] in Contents(h) && LeafSpec(H, log, p.kids[i], Contents(h)[pid + [i]], loss)
    {
      LeafSince(H, L, h, log, pid, pid + [i], p.kids[i], loss);
    }
    forall i: Nibble, j: Nibble | n == 2 ensures SlotSpec(H, L, h, p, pid, i, j, loss) {
      SlotSince(H, L, h, p, pid, i, j, loss);
    }
  }

  lemma TouchSince(L: nat, h: seq<Commit>, pid: Path, q: Path)
    requires pid <= q && ValidHistory(h, L)
    ensures Touches(Contents(Upto(h, LastTouch(h, pid))), q) == Touches(Contents(h), q)
  {
    SinceLastTouch(h, pid, q, L);
    AgreeTouches(Contents(Upto(h, LastTouch(h, pid))), Contents(h), q);
  }

  lemma LeafSince(H: Hash, L: nat, h: seq<Commit>, log: Log, pid: Path, k: Path, leaf: Node, loss: Loss)
    requires pid <= k && ValidHistory(h, L)
    requires var m := Contents(Upto(h, LastTouch(h, pid))); k in m && LeafSpec(H, log, leaf, m[k], loss)
    ensures k in Contents(h) && LeafSpec(H, log, leaf, Contents(h)[k], loss)
  {
    SinceLastTouch(h, pid, k, L);
    assert k <= k;
  }

  lemma SlotSince(H: Hash, L: nat, h: seq<Commit>, p: Page, pid: Path, i: Nibble, j: Nibble, loss: Loss)
    requires |pid| + 2 <= L && ValidHistory(h, L)
    requires SlotSpec(H, L, Upto(h, LastTouch(h, pid)), p, pid, i, j, loss)
    ensures SlotSpec(H, L, h, p, pid, i, j, loss)
  {
    var h0, q := Upto(h, LastTouch(h, pid)), pid + [i, j];
    SinceLastTouch(h, pid, q, L);
    assert AgreeOn(Contents(h0), Contents(h), q);
    AgreeTouches(Contents(h0), Contents(h), q);
    AgreeMerkle(H, Contents(h0), Contents(h), q, L);
  }

  lemma SameEmpty(p: Page, loss: Loss)
    requires Same(p, EMPTY_PAGE, loss)
    ensures p == EMPTY_PAGE
  {
    SameParts(p, EMPTY_PAGE, loss);
    assert p.kids.Keys == {};
  }

  /* ---- GetPage ---- */

  /** GetPage answers exactly what the snapshots say, whenever the version is recoverable. */
  lemma GetPageExact(s: State, n: nat, snaps: map<nat, Page>, v: nat, pid: Path, loss: Loss)
    requires Inv(ChainOf(s, pid), snaps, n, ChainOf(s, pid).cur, loss)
    requires CacheOK(s.cache, pid, ChainOf(s, pid), snaps, loss) && Stamped(snaps)
    requires Recoverable(ChainOf(s, pid), v)
    ensures Exact(GetPage(s, v, pid).0, snaps, v, loss)
  {
    var c := ChainOf(s, pid);
    if CacheKey(v, pid) in s.cache {
    } else {
      LoadRecoverable(c, snaps, n, c.cur, s.current, v, loss);
    }
  }

  /** Reading version v of page pid at most adds that page to the cache. */
  ghost predicate CachedMore(s: State, s': State, v: nat, pid: Path) {
    var key := CacheKey(v, pid);
    && s' == s.(cache := s'.cache)
    && (forall k :: k in s.cache ==> k in s'.cache && s'.cache[k] == s.cache[k])
    && (forall k :: k in s'.cache ==> k in s.cache || k == key)
    && (key in s'.cache && key !in s.cache ==>
          LoadPage(ChainOf(s, pid), s.current, v) == Found(s'.cache[key]))
  }

  lemma GetPageCaches(s: State, v: nat, pid: Path)
    ensures CachedMore(s, GetPage(s, v, pid).1, v, pid)
  {
  }

  lemma CachedMoreKeeps(H: Hash, L: nat, s: State, s': State, g: Snaps, h: seq<Commit>, v: nat, pid: Path, q: Path,
                        loss: Loss)
    requires PageId(L, pid) && PageId(L, q) && ValidHistory(h, L)
    requires PageInv(H, L, s, g, h, q, loss) && CachedMore(s, s', v, pid)
    ensures PageInv(H, L, s', g, h, q, loss)
  {
    if q == pid && CacheKey(v, pid) !in s.cache && CacheKey(v, pid) in s'.cache {
      LoadedIsCacheable(H, L, s, g, h, v, pid, loss);
    }
    CacheGrows(s.cache, s'.cache, CacheKey(v, pid), q, ChainOf(s, q), SnapsOf(g, q), loss);
  }

  /** Reading a page keeps the invariant. */
  lemma GetPageKeeps(H: Hash, L: nat, s: State, g: Snaps, h: seq<Commit>, v: nat, pid: Path, loss: Loss)
    requires PageId(L, pid) && TrieInv(H, L, s, g, h, loss)
    ensures TrieInv(H, L, GetPage(s, v, pid).1, g, h, loss)
  {
    var s' := GetPage(s, v, pid).1;
    GetPageCaches(s, v, pid);
    forall q | PageId(L, q) ensures PageInv(H, L, s', g, h, q, loss) {
      CachedMoreKeeps(H, L, s, s', g, h, v, pid, q, loss);
    }
  }

  lemma LoadedIsCacheable(H: Hash, L: nat, s: State, g: Snaps, h: seq<Commit>, v: nat, pid: Path, loss: Loss)
    requires PageId(L, pid) && PageInv(H, L, s, g, h, pid, loss) && ValidHistory(h, L)
    requires LoadPage(ChainOf(s, pid), s.current, v).Found?
    ensures CacheInv(LoadPage(ChainOf(s, pid), s.current, v).p, ChainOf(s, pid), SnapsOf(g, pid), v, loss)
  {
    var c := ChainOf(s, pid);
    NewestSnap(H, L, c, SnapsOf(g, pid), h, s.log, pid, loss);
    if Recoverable(c, v) {
      LoadRecoverable(c, SnapsOf(g, pid), Kind(L, pid), c.cur, s.current, v, loss);
    }
  }

  lemma CacheGrows(cache: map<CacheKey, Page>, cache': map<CacheKey, Page>, key: CacheKey, pid: Path, c: Chain,
                   snaps: map<nat, Page>, loss: Loss)
    requires Linked(c.stored) && CacheOK(cache, pid, c, snaps, loss)
    requires forall k :: k in cache' && k != key ==> k in cache && cache'[k] == cache[k]
    requires key in cache' && key.pid == pid ==>
               (key in cache && cache'[key] == cache[key]) || CacheInv(cache'[key], c, snaps, key.version, loss)
    ensures CacheOK(cache', pid, c, snaps, loss)
  {
    forall v | CacheKey(v, pid) in cache' ensures CacheInv(cache'[CacheKey(v, pid)], c, snaps, v, loss) {
      if CacheKey(v, pid) in cache {
        assert CacheInv(cache[CacheKey(v, pid)], c, snaps, v, loss);
      }
    }
  }

  /** Dropping cached pages keeps the invariant. */
  lemma CacheShrinks(H: Hash, L: nat, s: State, s': State, g: Snaps, h: seq<Commit>, pid: Path, loss: Loss)
    requires PageId(L, pid) && PageInv(H, L, s, g, h, pid, loss)
    requires s' == s.(cache := s'.cache)
    requires forall k :: k in s'.cache ==> k in s.cache && s'.cache[k] == s.cache[k]
    ensures PageInv(H, L, s', g, h, pid, loss)
  {
    var c, snaps := ChainOf(s, pid), SnapsOf(g, pid);
    forall v | CacheKey(v, pid) in s'.cache ensures CacheInv(s'.cache[CacheKey(v, pid)], c, snaps, v, loss) {
      assert CacheInv(s.cache[CacheKey(v, pid)], c, snaps, v, loss);
    }
  }
}
