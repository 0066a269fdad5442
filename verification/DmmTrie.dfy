/** DMMTrie as an object over its page cache and its value log, proved against the simple
    store of History: what Put, Delete, CalcRootHash, Get, GetRootHash and GetProof promise
    a client. */
module DmmTrie {
  import opened Types
  import opened Pages
  import opened Chains
  import opened ValueLog
  import opened History
  import opened PageSpecs
  import opened PageCache
  import opened LruCache
  import opened PageLoader
  import opened PageWriter
  import opened TrieState
  import opened TrieInvariant
  import opened TrieCommit
  import opened TrieRuns
  import opened TrieReads
  import opened TrieTheorems
  import opened TrieCache
  import opened TrieLoop
  import opened TrieDescent
  import opened Plans

  /** Reading changes nothing but what is cached. */
  ghost predicate OnlyCache(s: State, s': State) { s' == s.(cache := s'.cache) }

  class DMMTrie {
    const H: Hash
    /** The length of every key. */
    const L: nat
    var current: nat
    var put: map<Path, Bytes>
    /** For each page id its entries in page_versions_ and deltapage_versions_ and what the
        page store holds for it. */
    var chains: map<Path, Chain>
    const lru: Lru<CacheKey, Page>
    const values: VDLS
    /** What has been committed. */
    ghost var history: seq<Commit>

    ghost predicate Parts()
      reads this, lru, values
    {
      lru.Valid() && values.Valid()
    }

    ghost function Snapshot(): (s: State)
      reads this, lru, values
      requires Parts()
    {
      State(current, put, chains, ToMap(lru.Contents()), values.Contents())
    }

    /** The trie agrees with the simple store after what has been committed. */
    ghost predicate Valid()
      reads this, lru, values
    {
      Parts() && Sound(H, L, Snapshot(), history) && CachedPages(L, Snapshot())
    }

    constructor (H: Hash, L: nat, maxCacheSize: nat)
      requires maxCacheSize > 0
      ensures Valid() && history == [] && put == map[] && current == 0 && fresh(lru) && fresh(values)
      ensures this.H == H && this.L == L && lru.capacity == maxCacheSize
    {
      this.H, this.L := H, L;
      current, put, chains, history := 0, map[], map[], [];
      lru := new Lru(maxCacheSize);
      values := new VDLS();
      new;
      NewTrieInv(H, L, Lossless);
      SoundIs(H, L, NEW_TRIE, []);
      assert Snapshot() == NEW_TRIE;
    }

    /** A write is buffered; one for an outdated version, or an empty value, is refused. */
    method Put(version: nat, key: Path, value: Bytes) returns (ok: bool)
      requires Valid() && |key| == L
      modifies this
      ensures Valid() && history == old(history)
      ensures ok <==> version >= old(current) && value != []
      ensures if ok then put == old(put)[key := value] && current == version
              else put == old(put) && current == old(current)
    {
      ghost var s := Snapshot();
      if version < current || value == [] {
        return false;
      }
      OpKeeps(H, L, s, history, DoPut(version, key, value));
      current := version;
      put := put[key := value];
      assert Snapshot() == TrieState.Put(s, version, key, value);
      return true;
    }

    method Delete(version: nat, key: Path)
      requires Valid() && |key| == L
      modifies this
      ensures Valid() && history == old(history)
      ensures if version >= old(current) then put == old(put)[key := []] && current == version
              else put == old(put) && current == old(current)
    {
      ghost var s := Snapshot();
      OpKeeps(H, L, s, history, DoDelete(version, key));
      if version >= current {
        current := version;
        put := put[key := []];
      }
      assert Snapshot() == TrieState.Delete(s, version, key);
    }

    /* ---- Reading pages ---- */

    function ChainAt(pid: Path): Chain
      reads this
    {
      if pid in chains then chains[pid] else NEW_CHAIN
    }

    /** GetPage: from the cache, else rebuilt and cached; gone is what PutPage drops. */
    method GetPage(version: nat, pid: Path) returns (r: Loaded, ghost gone: set<CacheKey>)
      requires Parts() && Loadable(ChainAt(pid))
      modifies lru
      ensures Parts() && PageRead(old(Snapshot()), Snapshot(), version, pid, r, gone)
      ensures Accessed(old(lru.Contents()), lru.Contents(), lru.capacity, gone)
    {
      ghost var s, list := Snapshot(), lru.Contents();
      var key := CacheKey(version, pid);
      FindIsMap(list, key);
      gone := {};
      r := Missing;
      TouchAccesses(list, key, lru.capacity);
      var hit := lru.Get(key);
      if hit.Some? {
        TouchIsSame(list, key);
        ReadHit(s, version, pid);
        r := Found(hit.value);
      } else {
        r := LoadFrom(ChainAt(pid), current, version);
        ReadMiss(s, version, pid, r);
        if r.Found? {
          gone := Victim(list, lru.capacity);
          VictimIsCached(list, lru.capacity);
          PutIsUpdate(list, lru.capacity, key, r.p);
          PutAccesses(list, key, r.p, lru.capacity);
          lru.PutPage(key, r.p);
          DropFirst(ToMap(list), gone, key, r.p);
        }
      }
    }

    /* ---- The calls of one page ---- */

    /** The piece is ready in s, and the cache still holds the child page. */
    ghost predicate PieceReady(s: State, w: nat, pid: Path, piece: Path)
      reads this, lru, values
      requires Parts()
    {
      s.put == put && PieceFits(s, w, pid, piece) &&
      var key := CacheKey(w, pid + piece);
      |piece| == 2 ==> key in ToMap(lru.Contents()) && ToMap(lru.Contents())[key] == s.cache[key]
    }

    /** The hash of the child page, which the cache holds. */
    method ReadChildHash(w: nat, pid: Path, piece: Path, ghost s: State) returns (hash: Bytes)
      requires Parts() && |piece| == 2 && PieceReady(s, w, pid, piece)
      modifies lru
      ensures Parts() && ToMap(lru.Contents()) == old(ToMap(lru.Contents()))
      ensures hash == ChildRootHash(s, w, pid + piece)
      ensures Accessed(old(lru.Contents()), lru.Contents(), lru.capacity, {})
    {
      ghost var list := lru.Contents();
      var key := CacheKey(w, pid + piece);
      FindIsMap(list, key);
      TouchIsSame(list, key);
      TouchAccesses(list, key, lru.capacity);
      var page := lru.Get(key);
      hash := if page.value.root.Some? then page.value.root.value.hash else [];
    }

    method MakeOneCall(w: nat, pid: Path, piece: Path, ghost s: State) returns (call: Call)
      requires Parts() && PieceReady(s, w, pid, piece)
      modifies lru, values
      ensures Parts() && ToMap(lru.Contents()) == old(ToMap(lru.Contents()))
      ensures (call, values.Contents()) == MakeCall(s, old(values.Contents()), w, pid, piece)
      ensures Accessed(old(lru.Contents()), lru.Contents(), lru.capacity, {})
    {
      if |piece| == 2 {
        var hash := ReadChildHash(w, pid, piece, s);
        call := Call(piece, NO_LOCATION, [], hash);
      } else {
        var value := ValueOf(put, pid + piece);
        var loc := values.WriteValue(w, pid + piece, value);
        call := Call(piece, loc, value, []);
      }
    }

    method MakeAllCalls(w: nat, pid: Path, nibs: seq<Path>, ghost s: State) returns (calls: seq<Call>)
      requires Parts() && forall x :: 0 <= x < |nibs| ==> PieceReady(s, w, pid, nibs[x])
      modifies lru, values
      ensures Parts() && ToMap(lru.Contents()) == old(ToMap(lru.Contents()))
      ensures (calls, values.Contents()) == MakeCalls(s, old(values.Contents()), w, pid, nibs)
      ensures Pushed(old(lru.Contents()), lru.Contents(), |nibs|)
    {
      calls := [];
      ghost var end := MakeCalls(s, values.Contents(), w, pid, nibs);
      CallsBegin(s, values.Contents(), w, pid, nibs);
      for i := 0 to |nibs|
        invariant Parts() && ToMap(lru.Contents()) == old(ToMap(lru.Contents()))
        invariant CallsTo(s, values.Contents(), w, pid, nibs, i, calls, end)
        invariant Pushed(old(lru.Contents()), lru.Contents(), i)
      {
        assert PieceReady(s, w, pid, nibs[i]) by { assert old(PieceReady(s, w, pid, nibs[i])); }
        ghost var log, list := values.Contents(), lru.Contents();
        var call := MakeOneCall(w, pid, nibs[i], s);
        CallsNext(s, log, w, pid, nibs, i, calls, end, call, values.Contents());
        PushedMore(old(lru.Contents()), list, lru.Contents(), lru.capacity, i, {});
        calls := calls + [call];
      }
      CallsEnd(s, values.Contents(), w, pid, nibs, calls, end);
    }

    /* ---- One page of a commit ---- */

    /** The page is read under its newest version, gone is what that drops from the cache. */
    method OpenPage(w: nat, pid: Path, nibs: seq<Path>, ghost n: nat) returns (p: Page, ghost gone: set<CacheKey>)
      requires Parts() && Ready(L, Snapshot(), w, Work(pid, nibs)) && Recent(lru.Contents(), w, n) && n < lru.capacity
      modifies lru
      ensures Parts() && NotOf(gone, w) && Opened(old(Snapshot()), Snapshot(), w, pid, p, gone)
      ensures Shaped(p, Kind(L, pid)) && Recent(lru.Contents(), w, n + 1)
    {
      ghost var s := Snapshot();
      var l;
      l, gone := GetPage(ChainAt(pid).cur, pid);
      p := l.p;
      OpenedIs(s, Snapshot(), w, pid, p, gone);
    }

    /** The calls of the opened page: the same as they would have been before it was opened. */
    method CallsOf(w: nat, pid: Path, nibs: seq<Path>, ghost s: State, ghost p: Page, ghost gone: set<CacheKey>)
      returns (calls: seq<Call>)
      requires Parts() && Opened(s, Snapshot(), w, pid, p, gone) && ChainOf(s, pid).cur < w
      requires forall x :: 0 <= x < |nibs| ==> PieceFits(s, w, pid, nibs[x])
      modifies lru, values
      ensures Parts() && ToMap(lru.Contents()) == old(ToMap(lru.Contents()))
      ensures (calls, values.Contents()) == MakeCalls(Evict(s, gone, w), s.log, w, pid, nibs)
      ensures calls == MakeCalls(s, s.log, w, pid, nibs).0
      ensures Pushed(old(lru.Contents()), lru.Contents(), |nibs|)
    {
      ghost var s1 := Evict(s, gone, w);
      forall x | 0 <= x < |nibs| ensures PieceReady(s1, w, pid, nibs[x]) {
        assert PieceFits(s, w, pid, nibs[x]);
      }
      MakeCallsSame(s, s1, s.log, w, pid, nibs);
      calls := MakeAllCalls(w, pid, nibs, s1);
    }

    /** The page, changed meanwhile, is cached under version w only, and its chain recorded. */
    method ClosePage(w: nat, pid: Path, c: Chain, q: Page, ghost s1: State, ghost p: Page, ghost n: nat)
      requires Parts() && ChainAt(pid).cur < w && CacheKey(w, pid) !in s1.cache && Recent(lru.Contents(), w, n)
      requires s1.chains == chains && s1.current == current && s1.put == put
      requires ToMap(lru.Contents()) == s1.cache[CacheKey(ChainAt(pid).cur, pid) := p]
      modifies this, lru
      ensures Parts() && history == old(history) && Recent(lru.Contents(), w, n + 1)
      ensures Snapshot() == TrieState.Rekey(s1, w, pid, c, q, old(values.Contents()))
    {
      var from, to := CacheKey(ChainAt(pid).cur, pid), CacheKey(w, pid);
      RekeyCache(lru.Contents(), from, to, p, q, s1.cache, w, n);
      RekeyIs(s1, w, pid, c, q, values.Contents(), from);
      lru.UpdatePageKey(from, to, q);
      chains := chains[pid := c];
      assert ToMap(lru.Contents()) == (s1.cache - {from})[to := q];
    }

    /** One iteration of the main loop of CalcRootHash. */
    method CommitPageAt(w: nat, pid: Path, nibs: seq<Path>, ghost n: nat) returns (ghost gone: set<CacheKey>)
      requires Parts() && Ready(L, Snapshot(), w, Work(pid, nibs)) && Recent(lru.Contents(), w, n) && n < lru.capacity
      modifies this, lru, values
      ensures Parts() && history == old(history)
      ensures Snapshot() == CommitOne(H, L, Evict(old(Snapshot()), gone, w), w, pid, nibs)
      ensures Recent(lru.Contents(), w, n + |nibs| + 2)
    {
      ghost var s := Snapshot();
      var c := ChainAt(pid);
      var p;
      p, gone := OpenPage(w, pid, nibs, n);
      ghost var s1, list := Evict(s, gone, w), lru.Contents();
      var calls := CallsOf(w, pid, nibs, s, p, gone);
      assert Recent(list, w, n + 1) && Recent(lru.Contents(), w, (n + 1) + |nibs|);
      var c', q := CommitPageObjects(H, c, p, pid, w, calls, Kind(L, pid));
      CommitOneIs(H, L, s1, w, pid, nibs, calls, values.Contents(), p, c', q);
      ClosePage(w, pid, c', q, s1, p, n + 1 + |nibs|);
    }

    /* ---- CalcRootHash ---- */

    /** What holds before the x-th page of the plan, n accesses into the commit. */
    ghost predicate Committing(w: nat, plan: seq<Work>, x: nat, n: nat)
      reads this, lru, values
    {
      x <= |plan| && Parts() && CachedPages(L, Snapshot()) &&
          InLoop(H, L, Snapshot(), history, Commit(w, put), plan, x) &&
      Recent(lru.Contents(), w, n) && n + Weight(plan[x..]) <= lru.capacity
    }

    method CommitNext(w: nat, plan: seq<Work>, x: nat, ghost n: nat)
      requires x < |plan| && IsPlan(L, put, plan) && RecordsFit(w, put) && Committing(w, plan, x, n)
      modifies this, lru, values
      ensures history == old(history) && put == old(put) && current == old(current)
      ensures Committing(w, plan, x + 1, n + |plan[x].nibs| + 2)
    {
      ghost var s := Snapshot();
      InLoopReady(H, L, s, history, Commit(w, put), plan, x);
      var gone := CommitPageAt(w, plan[x].pid, plan[x].nibs, n);
      CommitOnePut(H, L, Evict(s, gone, w), w, plan[x].pid, plan[x].nibs);
      InLoopNext(H, L, s, history, Commit(w, put), plan, x, gone);
      PlannedPid(L, put, plan, x);
      CommitOneCaches(H, L, s, w, plan[x].pid, plan[x].nibs, gone);
    }

    /** The main loop: every page of the plan is brought to version w. */
    method CommitPlan(w: nat, plan: seq<Work>) returns (ghost n: nat)
      requires IsPlan(L, put, plan) && RecordsFit(w, put) && Committing(w, plan, 0, 0)
      modifies this, lru, values
      ensures history == old(history) && put == old(put) && current == old(current)
      ensures Committing(w, plan, |plan|, n)
    {
      n := 0;
      for x := 0 to |plan|
        invariant history == old(history) && put == old(put) && current == old(current)
        invariant Committing(w, plan, x, n)
      {
        CommitNext(w, plan, x, n);
        n := n + |plan[x].nibs| + 2;
      }
    }

    ghost method BeginCommit(w: nat, plan: seq<Work>)
      requires Valid() && Latest(history) < w
      requires put != map[] && IsPlan(L, put, plan) && Weight(plan) <= lru.capacity
      ensures Committing(w, plan, 0, 0)
    {
      BeginLoop(H, L, Snapshot(), history, w, plan);
      NothingCachedYet(H, L, Snapshot(), history, w);
      NoneOfCommit(lru.Contents(), w);
      assert plan[0..] == plan;
    }

    /** CalcRootHash at a version newer than every committed one: what was buffered becomes the
        next commit of the history, and the version reached stays. The cache holds more pages
        than the commit accesses. */
    method CalcRootHash(w: nat)
      requires Valid() && Latest(history) < w
      requires RecordsFit(w, put) && CommitFits(L, put, lru.capacity)
      modifies this, lru, values
      ensures Valid() && put == map[] && current == old(current)
      ensures history == if old(put) == map[] then old(history) else old(history) + [Commit(w, old(put))]
    {
      if put == map[] {
        return;
      }
      KeysHaveLength(H, L, Snapshot(), history);
      var plan := BuildPlan(L, put);
      PlanFits(L, put, lru.capacity, plan);
      CommitAlong(w, plan);
    }

    method CommitAlong(w: nat, plan: seq<Work>)
      requires Valid() && Latest(history) < w
      requires put != map[] && IsPlan(L, put, plan) && RecordsFit(w, put) && Weight(plan) <= lru.capacity
      modifies this, lru, values
      ensures Valid() && put == map[] && current == old(current)
      ensures history == old(history) + [Commit(w, old(put))]
    {
      BeginCommit(w, plan);
      ghost var n := CommitPlan(w, plan);
      FinishCommit(w, plan, n);
    }

    /** The buffer is emptied, and the commit recorded. */
    method FinishCommit(w: nat, ghost plan: seq<Work>, ghost n: nat)
      requires IsPlan(L, put, plan) && Committing(w, plan, |plan|, n)
      modifies this
      ensures Valid() && put == map[] && current == old(current)
      ensures history == old(history) + [Commit(w, old(put))]
    {
      EndLoop(H, L, Snapshot(), history, Commit(w, put), plan);
      ghost var s := Snapshot();
      history := history + [Commit(w, put)];
      put := map[];
      assert Snapshot() == s.(put := map[]);
    }

    /* ---- Get and GetProof ---- */

    /** The page ids and versions that the answer about k at v depends on can be rebuilt. */
    ghost predicate Answerable(v: nat, k: Path)
      reads this, lru, values
      requires Parts()
    {
      Committed(history, v) && PathRecoverable(Snapshot(), history, v, k)
    }

    /** The newest version is always answerable. */
    lemma NewestIsAnswerable(k: Path)
      requires Valid() && |k| == L && history != []
      ensures Answerable(Latest(history), k)
      ensures PageRecoverable(Snapshot(), history, Latest(history), [])
    {
      var s, v := Snapshot(), Latest(history);
      SoundIs(H, L, s, history);
      NewestRecoverable(H, L, s, history, v, k, Lossless);
      assert k[..0] == [] && PageRecoverable(s, history, v, k[..0]);
    }

    /** The next page of the path. */
    method ReadPage(version: nat, pid: Path) returns (r: Loaded, ghost gone: set<CacheKey>)
      requires Valid() && PageId(L, pid)
      modifies lru
      ensures Valid() && PageRead(old(Snapshot()), Snapshot(), version, pid, r, gone)
      ensures Snapshot() == old(Snapshot()).(cache := Snapshot().cache)
    {
      ghost var s := Snapshot();
      LoadableAt(H, L, s, history, pid);
      r, gone := GetPage(version, pid);
      ReadKeeps(H, L, s, Snapshot(), history, version, pid, r, gone);
      ReadCaches(L, s, Snapshot(), version, pid, r, gone);
    }

    /** The descent of k at v stands where it should before nibble i. The quantifier keeps
        OnPath out of the way until it is mentioned. */
    ghost predicate Following(v: nat, k: Path, i: nat, version: nat, leaf: Option<Node>, proofs: seq<NodeProof>)
      reads this, lru, values
      requires Parts()
    {
      Answerable(v, k) &&
      forall j: nat :: j == i ==> OnPath(H, L, Upto(history, v), values.Contents(), k, j, version, leaf, proofs)
    }

    /** The loop's invariant, if the version is answerable at all. */
    ghost predicate Tracks(answerable: bool, v: nat, k: Path, i: nat, version: nat, leaf: Option<Node>,
                           proofs: seq<NodeProof>)
      reads this, lru, values
      requires Parts()
    {
      answerable ==> Following(v, k, i, version, leaf, proofs)
    }

    ghost predicate RightEnd(v: nat, k: Path, d: TrieReads.Descent)
      reads this, lru, values
    {
      Right(H, L, d, Contents(Upto(history, v)), values.Contents(), k, Lossless)
    }

    /** One round of the loop: the page is read and the next step taken. */
    method ReadStep(k: Path, i: nat, version: nat, leaf: Option<Node>, proofs: seq<NodeProof>, ghost v: nat,
                    ghost answerable: bool)
      returns (next: Next, ghost r: Loaded)
      requires Valid() && |k| == L && i <= L && i % 2 == 0
      requires Tracks(answerable, v, k, i, version, leaf, proofs)
      modifies lru
      ensures Valid() && OnlyCache(old(Snapshot()), Snapshot())
      ensures next.Stop? && answerable ==> RightEnd(v, k, next.d)
      ensures !next.Stop? ==> Tracks(answerable, v, k, i + 2, next.version, next.leaf, next.proofs)
      ensures r == TrieState.GetPage(old(Snapshot()), version, k[..i]).0
      ensures next == LoadedStep(k, i, version, leaf, proofs, r)
    {
      ghost var s := Snapshot();
      var page, gone := ReadPage(version, k[..i]);
      r := page;
      if answerable {
        assert OnPath(H, L, Upto(history, v), s.log, k, i, version, leaf, proofs);
        ReadNext(H, L, s, Snapshot(), history, v, k, i, version, leaf, proofs, page, gone);
        KeepPath(s, Snapshot(), history, v, k);
      }
      match page {
        case Fault => next := Stop(Threw);
        case Missing => next := Stop(Absent(proofs));
        case Found(p) => next := StepPage(k, i, version, leaf, proofs, p);
      }
    }

    /** No page has been read yet, if no commit made the version. */
    ghost predicate Waits(vacant: bool, v: nat, i: nat, version: nat, proofs: seq<NodeProof>)
      reads this, lru, values
      requires Parts()
    {
      vacant ==> i == 0 && version == v && proofs == [] && Vacant(Snapshot(), history, v)
    }

    method ReadOn(k: Path, i: nat, version: nat, leaf: Option<Node>, proofs: seq<NodeProof>, ghost v: nat,
                  ghost answerable: bool, ghost vacant: bool)
      returns (next: Next)
      requires Valid() && |k| == L && i <= L && i % 2 == 0
      requires Tracks(answerable, v, k, i, version, leaf, proofs) && Waits(vacant, v, i, version, proofs)
      modifies lru
      ensures Valid() && OnlyCache(old(Snapshot()), Snapshot())
      ensures next.Stop? && answerable ==> RightEnd(v, k, next.d)
      ensures !next.Stop? ==> Tracks(answerable, v, k, i + 2, next.version, next.leaf, next.proofs)
      ensures vacant ==> next == Stop(Absent([]))
    {
      if vacant {
        VacantStep(H, L, Snapshot(), history, v, k);
      }
      ghost var r;
      next, r := ReadStep(k, i, version, leaf, proofs, v, answerable);
    }

    method Descent(v: nat, k: Path) returns (d: TrieReads.Descent)
      requires Valid() && |k| == L
      modifies lru
      ensures Valid() && OnlyCache(old(Snapshot()), Snapshot())
      ensures old(Answerable(v, k)) ==> RightEnd(v, k, d)
      ensures old(Vacant(Snapshot(), history, v)) ==> d == Absent([])
    {
      ghost var answerable, vacant := Answerable(v, k), Vacant(Snapshot(), history, v);
      if answerable {
        FollowingBegins(v, k);
      }
      d := Follow(v, k, answerable, vacant);
    }

    /** The loop shared by Get and GetProof. */
    method Follow(v: nat, k: Path, ghost answerable: bool, ghost vacant: bool) returns (d: TrieReads.Descent)
      requires Valid() && |k| == L && (answerable ==> Following(v, k, 0, v, None, []))
      requires Waits(vacant, v, 0, v, [])
      modifies lru
      ensures Valid() && OnlyCache(old(Snapshot()), Snapshot())
      ensures answerable ==> RightEnd(v, k, d)
      ensures vacant ==> d == Absent([])
    {
      ghost var s := Snapshot();
      var i, version, leaf, proofs := 0, v, None, [];
      while i <= |k|
        invariant i % 2 == 0 && Valid() && OnlyCache(s, Snapshot())
        invariant Tracks(answerable, v, k, i, version, leaf, proofs)
        invariant Waits(vacant, v, i, version, proofs)
        decreases |k| + 2 - i
      {
        var next := ReadOn(k, i, version, leaf, proofs, v, answerable, vacant);
        if next.Stop? {
          return next.d;
        }
        version, leaf, proofs := next.version, next.leaf, next.proofs;
        i := i + 2;
      }
      d := End(leaf, proofs);
      if answerable {
        FollowingEnds(v, k, i, version, leaf, proofs);
      }
    }

    lemma FollowingBegins(v: nat, k: Path)
      requires Valid() && |k| == L && Answerable(v, k)
      ensures Following(v, k, 0, v, None, [])
    {
      BeginPath(H, L, Snapshot(), history, v, k);
    }

    lemma FollowingEnds(v: nat, k: Path, i: nat, version: nat, leaf: Option<Node>, proofs: seq<NodeProof>)
      requires Parts() && Following(v, k, i, version, leaf, proofs) && i > |k| == L
      ensures RightEnd(v, k, End(leaf, proofs))
    {
      assert OnPath(H, L, Upto(history, v), values.Contents(), k, i, version, leaf, proofs);
    }

    /** Get: None stands for an exception. At a committed version whose pages can be rebuilt
        it is the last value written in commits up to that version, up to its first newline;
        at a version that no commit made, "". */
    method Get(v: nat, k: Path) returns (value: Option<Bytes>)
      requires Valid() && |k| == L
      modifies lru
      ensures Valid() && put == old(put) && history == old(history)
      ensures old(Answerable(v, k)) ==> value == Some(FirstLine(Value(Upto(history, v), k)))
      ensures old(Vacant(Snapshot(), history, v)) ==> value == Some([])
    {
      var d := Descent(v, k);
      match d {
        case Threw => value := None;
        case Absent(_) => value := Some([]);
        case Reached(leaf, _) => value := Some(ReadValue(values.Contents(), LocationOf(leaf)));
      }
    }

    /** GetProof: at an answerable version the proof carries the key's value, "" for a deleted
        or unwritten key, and the nodes of the Merkle tree on its path: of a key that was ever
        written one for each nibble, last nibble first, of another those there are, from the
        root down. That of a live key is accepted by Verify against the root hash. At a version
        that no commit made the proof is empty. */
    method GetProof(v: nat, k: Path) returns (proof: Option<Proof>)
      requires Valid() && |k| == L
      modifies lru
      ensures Valid() && put == old(put) && history == old(history)
      ensures old(Answerable(v, k)) ==>
                proof.Some? && ProofHolds(H, L, Contents(Upto(history, v)), k, proof.value, Lossless)
      ensures old(Answerable(v, k)) && Value(Upto(history, v), k) != [] ==>
                Proves(H, L, history, v, k, proof.value.nodes)
      ensures old(Vacant(Snapshot(), history, v)) ==> proof == Some(Proof([], []))
    {
      var d := Descent(v, k);
      if Right(H, L, d, Contents(Upto(history, v)), values.Contents(), k, Lossless) {
        RightHolds(H, L, Contents(Upto(history, v)), d, values.Contents(), k, Lossless);
        if Value(Upto(history, v), k) != [] {
          ProofIsRight(H, L, history, v, k, d, values.Contents());
        }
      }
      match d {
        case Threw => proof := None;
        case Absent(proofs) => proof := Some(Proof([], proofs));
        case Reached(leaf, proofs) =>
          var nodes := ReverseNodes(proofs);
          proof := Some(Proof(ReadValue(values.Contents(), LocationOf(leaf)), nodes));
      }
    }

    /** std::reverse */
    method ReverseNodes(proofs: seq<NodeProof>) returns (nodes: seq<NodeProof>)
      ensures nodes == Reverse(proofs)
    {
      nodes := [];
      for i := 0 to |proofs|
        invariant |nodes| == i && forall x :: 0 <= x < i ==> nodes[x] == proofs[i - 1 - x]
      {
        nodes := [proofs[i]] + nodes;
      }
    }

    /** GetRootHash: the Merkle hash of the keys ever written and their values at that version. */
    method GetRootHash(v: nat) returns (hash: Option<Bytes>)
      requires Valid()
      modifies lru
      ensures Valid() && put == old(put) && history == old(history)
      ensures old(Committed(history, v) && PageRecoverable(Snapshot(), history, v, [])) ==>
                hash == Some(Merkle(H, Contents(Upto(history, v)), [], L))
      ensures old(Vacant(Snapshot(), history, v)) ==> hash == None
    {
      ghost var s := Snapshot();
      var r, gone := ReadPage(v, []);
      if Vacant(s, history, v) {
        VacantStep(H, L, s, history, v, []);
      }
      if Committed(history, v) && PageRecoverable(s, history, v, []) {
        RootHashOf(H, L, s, history, v);
      }
      hash := if r.Found? && r.p.root.Some? then Some(r.p.root.value.hash) else None;
    }

    /** Verify folds the nodes over the hash of the value. */
    method Verify(value: Bytes, rootHash: Bytes, nodes: seq<NodeProof>) returns (ok: bool)
      requires forall x :: 0 <= x < |nodes| ==> |nodes[x].siblings| == FANOUT
      ensures ok <==> TrieReads.Verify(H, value, rootHash, nodes)
    {
      var hash := H(value);
      assert nodes[0..] == nodes;
      for x := 0 to |nodes|
        invariant Fold(H, hash, nodes[x..]) == Fold(H, H(value), nodes)
      {
        assert nodes[x..][0] == nodes[x] && nodes[x..][1..] == nodes[x + 1..];
        var concatenated := ConcatenatedHash(nodes[x], hash);
        hash := H(concatenated);
      }
      assert nodes[|nodes|..] == [];
      ok := hash == rootHash;
    }

    static method ConcatenatedHash(node: NodeProof, hash: Bytes) returns (concatenated: Bytes)
      requires |node.siblings| == FANOUT
      ensures concatenated == Join(node.siblings[node.index := hash])
    {
      concatenated := [];
      ghost var parts := node.siblings[node.index := hash];
      assert parts[0..] == parts;
      for i := 0 to FANOUT
        invariant Join(parts) == concatenated + Join(parts[i..])
      {
        JoinNext(concatenated, parts, i);
        if i == node.index {
          concatenated := concatenated + hash;
        } else {
          concatenated := concatenated + node.siblings[i];
        }
      }
      assert parts[FANOUT..] == [];
    }
  }

  /** Verify accepts the value of the key at a committed version. */
  ghost predicate Proves(H: Hash, L: nat, h: seq<Commit>, v: nat, k: Path, nodes: seq<NodeProof>) {
    Wide(nodes) && TrieReads.Verify(H, Value(Upto(h, v), k), Merkle(H, Contents(Upto(h, v)), [], L), nodes)
  }

  lemma NodesVerify(H: Hash, L: nat, m: map<Path, Bytes>, proofs: seq<NodeProof>, k: Path)
    requires |k| == L == |proofs| && AllGood(H, L, m, proofs, k, Lossless) && k in m && m[k] != []
    ensures forall x :: 0 <= x < L ==> |Reverse(proofs)[x].siblings| == FANOUT
    ensures TrieReads.Verify(H, m[k], Merkle(H, m, [], L), Reverse(proofs))
  {
    FoldToRoot(H, L, m, proofs, k);
    assert k[..L] == k;
  }

  lemma ProofIsRight(H: Hash, L: nat, h: seq<Commit>, v: nat, k: Path, d: TrieReads.Descent, log: Log)
    requires |k| == L && Right(H, L, d, Contents(Upto(h, v)), log, k, Lossless) && Value(Upto(h, v), k) != []
    ensures d.Reached? && Proves(H, L, h, v, k, Reverse(d.proofs))
  {
    NodesVerify(H, L, Contents(Upto(h, v)), d.proofs, k);
  }

  /** At a version that no commit made there is no root page, or an empty one. */
  lemma VacantStep(H: Hash, L: nat, s: State, h: seq<Commit>, v: nat, k: Path)
    requires Sound(H, L, s, h) && Vacant(s, h, v)
    ensures var r := TrieState.GetPage(s, v, k[..0]).0; r == Missing || (r.Found? && r.p.root.None?)
  {
    SoundIs(H, L, s, h);
    VacantRoot(H, L, s, h, v, Lossless);
    assert k[..0] == [];
  }

  lemma RootHashOf(H: Hash, L: nat, s: State, h: seq<Commit>, v: nat)
    requires Sound(H, L, s, h) && Committed(h, v) && PageRecoverable(s, h, v, [])
    ensures var r := TrieState.GetPage(s, v, []).0;
            r.Found? && r.p.root.Some? && r.p.root.value.hash == Merkle(H, Contents(Upto(h, v)), [], L)
  {
    SoundIs(H, L, s, h);
    RootHashIsMerkle(H, L, s, h, v, Lossless);
  }

  ghost predicate NotOf(gone: set<CacheKey>, w: nat) {
    forall k :: k in gone ==> k.version != w
  }

  /** The state after a page was read for commit w: cached under its newest version. */
  ghost predicate Opened(s: State, s': State, w: nat, pid: Path, p: Page, gone: set<CacheKey>) {
    var from := CacheKey(ChainOf(s, pid).cur, pid);
    s' == s.(cache := s'.cache) && s'.cache == Evict(s, gone, w).cache[from := p] &&
    OldPage(Evict(s, gone, w), pid) == p
  }

  lemma OpenedIs(s: State, s': State, w: nat, pid: Path, p: Page, gone: set<CacheKey>)
    requires PageRead(s, s', ChainOf(s, pid).cur, pid, Found(p), gone) && NotOf(gone, w)
    ensures p == OldPage(s, pid) && Opened(s, s', w, pid, p, gone)
  {
    var from := CacheKey(ChainOf(s, pid).cur, pid);
    var s1 := Evict(s, gone, w);
    assert s1.cache == s.cache - gone;
    assert (from in s1.cache <==> from in s.cache) && (from in s.cache ==> s1.cache[from] == s.cache[from]);
    assert s'.cache == s1.cache[from := p];
  }

  lemma RekeyIs(s: State, w: nat, pid: Path, c: Chain, q: Page, log: Log, from: CacheKey)
    requires from == CacheKey(ChainOf(s, pid).cur, pid)
    ensures TrieState.Rekey(s, w, pid, c, q, log) ==
            State(s.current, s.put, s.chains[pid := c], (s.cache - {from})[CacheKey(w, pid) := q], log)
  {
  }

  lemma RekeyCache(list: Recency, from: CacheKey, to: CacheKey, p: Page, q: Page, cache: map<CacheKey, Page>, w: nat,
                   n: nat)
    requires PageCache.Distinct(list) && to != from && to !in cache && ToMap(list) == cache[from := p] &&
             Recent(list, w, n)
    ensures !Has(list, to) && Recent(Moved(list, from, to, q), w, n + 1) && PageCache.Distinct(Moved(list, from, to, q))
    ensures ToMap(Moved(list, from, to, q)) == (cache - {from})[to := q]
  {
    MovedIsClean(list, to);
    MovedIsRekey(list, from, to, q);
    RecentMoved(list, from, to, q, w, n);
    assert cache[from := p] - {from} == cache - {from};
  }

  lemma OpKeeps(H: Hash, L: nat, s: State, h: seq<Commit>, op: Op)
    requires Sound(H, L, s, h) && Enabled(L, s, h, op, Lossless)
    ensures Sound(H, L, Apply(H, L, s, op), Recorded(h, s, op))
  {
    SoundIs(H, L, s, h);
    ApplyKeeps(H, L, s, h, op, Lossless);
    SoundIs(H, L, Apply(H, L, s, op), Recorded(h, s, op));
  }

  lemma CommitOnePut(H: Hash, L: nat, s: State, w: nat, pid: Path, nibs: seq<Path>)
    ensures CommitOne(H, L, s, w, pid, nibs).put == s.put
  {
  }

  lemma KeysHaveLength(H: Hash, L: nat, s: State, h: seq<Commit>)
    requires Sound(H, L, s, h)
    ensures forall k :: k in s.put ==> |k| == L
  {
    SoundIs(H, L, s, h);
    var g: Snaps :| TrieInv(H, L, s, g, h, Lossless);
  }

  lemma PlannedPid(L: nat, batch: map<Path, Bytes>, plan: seq<Work>, x: nat)
    requires IsPlan(L, batch, plan) && x < |plan|
    ensures PageId(L, plan[x].pid)
  {
    assert WorkFor(L, batch, plan[x]);
  }

  lemma {:induction false} MakeCallsSame(s: State, s': State, log: Log, w: nat, pid: Path, nibs: seq<Path>)
    requires s'.put == s.put
    requires forall x :: 0 <= x < |nibs| && |nibs[x]| == 2 ==>
               var key := CacheKey(w, pid + nibs[x]); key in s.cache && key in s'.cache && s'.cache[key] == s.cache[key]
    ensures MakeCalls(s', log, w, pid, nibs) == MakeCalls(s, log, w, pid, nibs)
    decreases |nibs|
  {
    if nibs != [] {
      assert forall x :: 0 <= x < |nibs[1..]| ==> nibs[1..][x] == nibs[x + 1];
      assert MakeCall(s', log, w, pid, nibs[0]) == MakeCall(s, log, w, pid, nibs[0]);
      MakeCallsSame(s, s', MakeCall(s, log, w, pid, nibs[0]).1, w, pid, nibs[1..]);
    }
  }

  /** An iteration whose page has the right shape is the update of that page. */
  lemma MovedIsClean(s: Recency, to: CacheKey)
    requires PageCache.Distinct(s) && to !in ToMap(s)
    ensures !Has(s, to)
  {
    ToMapMaps(s);
  }

  /** The calls so far, and what is left to be made of the pieces from the i-th on. */
  ghost predicate CallsTo(s: State, log: Log, w: nat, pid: Path, nibs: seq<Path>, i: nat, calls: seq<Call>,
                          end: (seq<Call>, Log)) {
    i <= |nibs| &&
    forall rest :: rest == nibs[i..] ==>
        (calls + MakeCalls(s, log, w, pid, rest).0, MakeCalls(s, log, w, pid, rest).1) == end
  }

  lemma CallsBegin(s: State, log: Log, w: nat, pid: Path, nibs: seq<Path>)
    ensures CallsTo(s, log, w, pid, nibs, 0, [], MakeCalls(s, log, w, pid, nibs))
  {
    assert nibs[0..] == nibs;
    assert [] + MakeCalls(s, log, w, pid, nibs).0 == MakeCalls(s, log, w, pid, nibs).0;
  }

  lemma CallsNext(s: State, log: Log, w: nat, pid: Path, nibs: seq<Path>, i: nat, calls: seq<Call>,
                  end: (seq<Call>, Log), call: Call, log': Log)
    requires CallsTo(s, log, w, pid, nibs, i, calls, end) && i < |nibs| &&
             (call, log') == MakeCall(s, log, w, pid, nibs[i])
    ensures CallsTo(s, log', w, pid, nibs, i + 1, calls + [call], end)
  {
    assert nibs[i..][0] == nibs[i] && nibs[i..][1..] == nibs[i + 1..];
    var later := MakeCalls(s, log', w, pid, nibs[i + 1..]).0;
    assert MakeCalls(s, log, w, pid, nibs[i..]).0 == [call] + later;
    assert calls + ([call] + later) == calls + [call] + later;
  }

  lemma CallsEnd(s: State, log: Log, w: nat, pid: Path, nibs: seq<Path>, calls: seq<Call>, end: (seq<Call>, Log))
    requires CallsTo(s, log, w, pid, nibs, |nibs|, calls, end)
    ensures end == (calls, log)
  {
    assert nibs[|nibs|..] == [];
    assert calls + MakeCalls(s, log, w, pid, []).0 == calls;
  }

  lemma ReadHit(s: State, v: nat, pid: Path)
    requires CacheKey(v, pid) in s.cache
    ensures PageRead(s, s, v, pid, Found(s.cache[CacheKey(v, pid)]), {})
  {
    assert s.cache - {} == s.cache;
  }

  lemma ReadMiss(s: State, v: nat, pid: Path, l: Loaded)
    requires CacheKey(v, pid) !in s.cache && l == LoadPage(ChainOf(s, pid), s.current, v)
    ensures !l.Found? ==> PageRead(s, s, v, pid, l, {})
    ensures l.Found? ==> forall gone :: gone <= s.cache.Keys ==>
              PageRead(s, s.(cache := s.cache[CacheKey(v, pid) := l.p] - gone), v, pid, l, gone)
  {
    assert s.cache - {} == s.cache;
  }

  lemma DropFirst(cache: map<CacheKey, Page>, gone: set<CacheKey>, key: CacheKey, p: Page)
    requires key !in cache && gone <= cache.Keys
    ensures (cache - gone)[key := p] == cache[key := p] - gone
  {
  }
}
