/** The main loop of CalcRootHash seen from one iteration: what holds before it, what that
    gives the iteration to rely on, and what holds after it. */
module TrieLoop {
  import opened Types
  import opened Pages
  import opened Chains
  import opened PageCommits
  import opened ValueLog
  import opened History
  import opened PageSpecs
  import opened TrieState
  import opened TrieInvariant
  import opened TrieCommit
  import opened TrieRuns

  ghost predicate Loadable(c: Chain) {
    Linked(c.stored) && Refers(c.stored, c.active.last)
  }

  function ValueOf(put: map<Path, Bytes>, k: Path): Bytes {
    if k in put then put[k] else []
  }

  /** Every record of the batch fits a file of the value log. */
  ghost predicate RecordsFit(w: nat, put: map<Path, Bytes>) {
    forall k :: k in put ==> |Record(w, k, put[k])| <= MAX_FILE_SIZE
  }

  /** The child page of a piece of two nibbles has been brought to version w; for a shorter
      piece the value log has room for the record. */
  ghost predicate PieceFits(s: State, w: nat, pid: Path, piece: Path) {
    if |piece| == 2 then CacheKey(w, pid + piece) in s.cache
    else |Record(w, pid + piece, ValueOf(s.put, pid + piece))| <= MAX_FILE_SIZE
  }

  ghost predicate Readable(L: nat, s: State, w: nat, pid: Path) {
    && Loadable(ChainOf(s, pid)) && ChainOf(s, pid).cur < w && CacheKey(w, pid) !in s.cache
    && GetPage(s, ChainOf(s, pid).cur, pid).0.Found? && Shaped(OldPage(s, pid), Kind(L, pid))
  }

  /** What an iteration relies on: the page's newest version can be read, nothing is cached
      for it at w, and its pieces are ready. */
  ghost predicate Ready(L: nat, s: State, w: nat, work: Work) {
    && Readable(L, s, w, work.pid)
    && ValidCalls(MakeCalls(s, s.log, w, work.pid, work.nibs).0, Kind(L, work.pid))
    && (forall x :: 0 <= x < |work.nibs| ==> PieceFits(s, w, work.pid, work.nibs[x]))
  }

  ghost predicate LoopInv(H: Hash, L: nat, s: State, g: Snaps, h: seq<Commit>, cm: Commit, done: set<Path>,
                          rest: seq<Work>) {
    && ValidHistory(h + [cm], L) && ValidHistory(h, L) && s.put == cm.batch
    && PlanRest(L, cm.batch, done, rest) && MidInv(H, L, s, g, h, cm, done, Lossless)
  }

  lemma HeadReadable(H: Hash, L: nat, s: State, g: Snaps, h: seq<Commit>, cm: Commit, pid: Path)
    requires PageId(L, pid) && ValidHistory(h + [cm], L) && ValidHistory(h, L) && PageInv(H, L, s, g, h, pid, Lossless)
    ensures Readable(L, s, cm.version, pid)
  {
    var c, snaps := ChainOf(s, pid), SnapsOf(g, pid);
    CurBelow(h, cm, L, pid);
    NewestSnap(H, L, c, snaps, h, s.log, pid, Lossless);
    GetPageExact(s, Kind(L, pid), snaps, c.cur, pid, Lossless);
    OldPageBefore(H, L, s, g, h, pid, Lossless);
  }

  lemma HeadPieces(H: Hash, L: nat, s: State, g: Snaps, h: seq<Commit>, cm: Commit, done: set<Path>, rest: seq<Work>)
    requires LoopInv(H, L, s, g, h, cm, done, rest) && rest != [] && RecordsFit(cm.version, cm.batch)
    ensures forall x :: 0 <= x < |rest[0].nibs| ==> PieceFits(s, cm.version, rest[0].pid, rest[0].nibs[x])
  {
    var work := rest[0];
    HeadWork(L, cm.batch, done, rest);
    HeadChildrenDone(H, L, s, g, h, cm, done, rest, Lossless);
    KeysOfBatch(h, cm, L);
    PiecesAreKeys(L, cm.batch, work);
    forall x | 0 <= x < |work.nibs| ensures PieceFits(s, cm.version, work.pid, work.nibs[x]) {
      if |work.nibs[x]| == 2 {
        assert ChildDone(H, L, s, h + [cm], cm.version, work.pid + work.nibs[x], Lossless);
      }
    }
  }

  lemma KeysOfBatch(h: seq<Commit>, cm: Commit, L: nat)
    requires ValidHistory(h + [cm], L)
    ensures forall k :: k in cm.batch ==> |k| == L
  {
    assert (h + [cm])[|h|] == cm;
  }

  lemma HeadCalls(H: Hash, L: nat, s: State, g: Snaps, h: seq<Commit>, cm: Commit, done: set<Path>, rest: seq<Work>)
    requires LoopInv(H, L, s, g, h, cm, done, rest) && rest != []
    ensures ValidCalls(MakeCalls(s, s.log, cm.version, rest[0].pid, rest[0].nibs).0, Kind(L, rest[0].pid))
  {
    HeadWork(L, cm.batch, done, rest);
    HeadChildrenDone(H, L, s, g, h, cm, done, rest, Lossless);
    WorkCalls(H, L, s, h, cm, rest[0], Lossless);
  }

  /** The next iteration can be carried out. */
  lemma LoopReady(H: Hash, L: nat, s: State, g: Snaps, h: seq<Commit>, cm: Commit, done: set<Path>, rest: seq<Work>)
    requires LoopInv(H, L, s, g, h, cm, done, rest) && rest != [] && RecordsFit(cm.version, cm.batch)
    ensures Ready(L, s, cm.version, rest[0])
  {
    HeadReadable(H, L, s, g, h, cm, rest[0].pid);
    HeadPieces(H, L, s, g, h, cm, done, rest);
    HeadCalls(H, L, s, g, h, cm, done, rest);
  }

  lemma LoopNext(H: Hash, L: nat, s: State, g: Snaps, h: seq<Commit>, cm: Commit, done: set<Path>, rest: seq<Work>,
                 keys: set<CacheKey>)
    returns (g': Snaps)
    requires LoopInv(H, L, s, g, h, cm, done, rest) && rest != []
    ensures LoopInv(H, L, CommitOne(H, L, Evict(s, keys, cm.version), cm.version, rest[0].pid, rest[0].nibs), g', h, cm,
                    done + {rest[0].pid}, rest[1..])
  {
    g' := IterationKeeps(H, L, s, g, h, cm, done, rest, keys, Lossless);
    PlanTail(L, cm.batch, done, rest);
  }

  /* ---- With the snapshots hidden ---- */

  ghost predicate SomeSnaps(H: Hash, L: nat, s: State, h: seq<Commit>, cm: Commit, plan: seq<Work>, x: nat) {
    x <= |plan| && exists g: Snaps :: LoopInv(H, L, s, g, h, cm, PidsOf(plan[..x]), plan[x..])
  }

  /** After the first x pages of the plan. The quantifier keeps the definition out of the way
      until SomeSnaps is mentioned. */
  ghost predicate InLoop(H: Hash, L: nat, s: State, h: seq<Commit>, cm: Commit, plan: seq<Work>, x: nat) {
    forall t: State :: t == s ==> SomeSnaps(H, L, t, h, cm, plan, x)
  }

  /** Agrees, kept out of the way in the same manner. */
  ghost predicate Sound(H: Hash, L: nat, s: State, h: seq<Commit>) {
    forall t: State :: t == s ==> Agrees(H, L, t, h, Lossless)
  }

  lemma SoundIs(H: Hash, L: nat, s: State, h: seq<Commit>)
    ensures Sound(H, L, s, h) <==> Agrees(H, L, s, h, Lossless)
  {
  }

  lemma BeginLoop(H: Hash, L: nat, s: State, h: seq<Commit>, w: nat, plan: seq<Work>)
    requires Sound(H, L, s, h) && s.put != map[] && Latest(h) < w
    requires IsPlan(L, s.put, plan)
    ensures InLoop(H, L, s, h, Commit(w, s.put), plan, 0)
  {
    SoundIs(H, L, s, h);
    var g: Snaps :| TrieInv(H, L, s, g, h, Lossless);
    HistoryGrows(h, Commit(w, s.put), L);
    assert plan[0..] == plan && PidsOf(plan[..0]) == {};
    assert LoopInv(H, L, s, g, h, Commit(w, s.put), PidsOf(plan[..0]), plan[0..]);
    assert SomeSnaps(H, L, s, h, Commit(w, s.put), plan, 0);
  }

  lemma InLoopReady(H: Hash, L: nat, s: State, h: seq<Commit>, cm: Commit, plan: seq<Work>, x: nat)
    requires InLoop(H, L, s, h, cm, plan, x) && x < |plan| && RecordsFit(cm.version, cm.batch)
    ensures Ready(L, s, cm.version, plan[x])
  {
    assert SomeSnaps(H, L, s, h, cm, plan, x);
    var g: Snaps :| LoopInv(H, L, s, g, h, cm, PidsOf(plan[..x]), plan[x..]);
    assert plan[x..][0] == plan[x];
    LoopReady(H, L, s, g, h, cm, PidsOf(plan[..x]), plan[x..]);
  }

  lemma InLoopNext(H: Hash, L: nat, s: State, h: seq<Commit>, cm: Commit, plan: seq<Work>, x: nat, keys: set<CacheKey>)
    requires InLoop(H, L, s, h, cm, plan, x) && x < |plan|
    ensures InLoop(H, L, CommitOne(H, L, Evict(s, keys, cm.version), cm.version, plan[x].pid, plan[x].nibs), h, cm,
            plan, x + 1)
  {
    assert SomeSnaps(H, L, s, h, cm, plan, x);
    var g: Snaps :| LoopInv(H, L, s, g, h, cm, PidsOf(plan[..x]), plan[x..]);
    assert plan[x..][0] == plan[x] && plan[x..][1..] == plan[x + 1..];
    var g' := LoopNext(H, L, s, g, h, cm, PidsOf(plan[..x]), plan[x..], keys);
    PidsNext(plan, x);
    var s' := CommitOne(H, L, Evict(s, keys, cm.version), cm.version, plan[x].pid, plan[x].nibs);
    assert SomeSnaps(H, L, s', h, cm, plan, x + 1);
  }

  lemma PidsNext(plan: seq<Work>, x: nat)
    requires x < |plan|
    ensures PidsOf(plan[..x]) + {plan[x].pid} == PidsOf(plan[..x + 1])
  {
    var a, b := plan[..x], plan[..x + 1];
    forall pid | pid in PidsOf(a) + {plan[x].pid} ensures pid in PidsOf(b) {
      if pid in PidsOf(a) {
        var y :| 0 <= y < |a| && a[y].pid == pid;
        assert b[y].pid == pid;
      } else {
        assert b[x].pid == pid;
      }
    }
  }

  lemma EndLoop(H: Hash, L: nat, s: State, h: seq<Commit>, cm: Commit, plan: seq<Work>)
    requires InLoop(H, L, s, h, cm, plan, |plan|) && IsPlan(L, cm.batch, plan)
    ensures Sound(H, L, s.(put := map[]), h + [cm])
  {
    assert plan[..|plan|] == plan;
    assert SomeSnaps(H, L, s, h, cm, plan, |plan|);
    var g: Snaps :| LoopInv(H, L, s, g, h, cm, PidsOf(plan[..|plan|]), plan[|plan|..]);
    assert {} + PidsOf(plan) == PidsOf(plan);
    forall pid | PageId(L, pid) ensures PageInv(H, L, s.(put := map[]), g, h + [cm], pid, Lossless) {
      FinishPage(H, L, s, g, h, cm, plan, pid, Lossless);
    }
    assert TrieInv(H, L, s.(put := map[]), g, h + [cm], Lossless);
  }

  /** Only pages of the trie are cached. */
  ghost predicate CachedPages(L: nat, s: State) {
    forall k :: k in s.cache ==> PageId(L, k.pid)
  }

  lemma KeyOlder(H: Hash, L: nat, s: State, h: seq<Commit>, w: nat, k: CacheKey)
    requires Sound(H, L, s, h) && Latest(h) < w
    requires k in s.cache && PageId(L, k.pid)
    ensures k.version < w
  {
    SoundIs(H, L, s, h);
    var g: Snaps :| TrieInv(H, L, s, g, h, Lossless);
    assert PageInv(H, L, s, g, h, k.pid, Lossless);
    TouchIsWritten(h, k.pid, L);
    assert k == CacheKey(k.version, k.pid);
  }

  /** No page of version w is cached before commit w. */
  lemma NothingCachedYet(H: Hash, L: nat, s: State, h: seq<Commit>, w: nat)
    requires Sound(H, L, s, h) && CachedPages(L, s) && Latest(h) < w
    ensures forall k :: k in s.cache ==> k.version != w
  {
    forall k | k in s.cache ensures k.version != w { KeyOlder(H, L, s, h, w, k); }
  }

  /* ---- How many pages a commit accesses ---- */

  function Weight(plan: seq<Work>): nat {
    if plan == [] then 0 else |plan[0].nibs| + 2 + Weight(plan[1..])
  }

  /** The cache holds more pages than any commit of the batch accesses. */
  ghost predicate CommitFits(L: nat, put: map<Path, Bytes>, capacity: nat) {
    forall plan: seq<Work> :: IsPlan(L, put, plan) ==> Weight(plan) <= capacity
  }

  lemma PlanFits(L: nat, put: map<Path, Bytes>, capacity: nat, plan: seq<Work>)
    requires CommitFits(L, put, capacity) && IsPlan(L, put, plan)
    ensures Weight(plan) <= capacity
  {
  }

  lemma CommitOneCaches(H: Hash, L: nat, s: State, w: nat, pid: Path, nibs: seq<Path>, keys: set<CacheKey>)
    requires CachedPages(L, s) && PageId(L, pid)
    ensures CachedPages(L, CommitOne(H, L, Evict(s, keys, w), w, pid, nibs))
  {
  }
}
