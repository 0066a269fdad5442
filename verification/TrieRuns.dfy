/** Whole commits and whole runs: every reachable state agrees with the simple store. */
module TrieRuns {
  import opened Types
  import opened Pages
  import opened Chains
  import opened ChainInvariant
  import opened Loads
  import opened Copies
  import opened ValueLog
  import opened History
  import opened PageSpecs
  import opened TrieState
  import opened TrieInvariant
  import opened TrieCommit

  /* ---- Plans: the ordered map `updates` of CalcRootHash ---- */

  /** Every touched page id once, deepest first, with its nibble pieces. */
  ghost predicate IsPlan(L: nat, batch: map<Path, Bytes>, plan: seq<Work>) {
    PlanRest(L, batch, {}, plan)
  }

  /** What is left of a plan when the page ids in done have been dealt with. */
  ghost predicate PlanRest(L: nat, batch: map<Path, Bytes>, done: set<Path>, plan: seq<Work>) {
    && (forall x :: 0 <= x < |plan| ==> WorkFor(L, batch, plan[x]) && plan[x].pid !in done)
    && (forall x, y :: 0 <= x < y < |plan| ==> plan[x].pid != plan[y].pid && |plan[x].pid| >= |plan[y].pid|)
    && (forall pid :: PageId(L, pid) && Touches(batch, pid) && pid !in done ==> Planned(plan, pid))
  }

  ghost predicate Planned(plan: seq<Work>, pid: Path) {
    exists x :: 0 <= x < |plan| && plan[x].pid == pid
  }

  lemma PlanTail(L: nat, batch: map<Path, Bytes>, done: set<Path>, plan: seq<Work>)
    requires PlanRest(L, batch, done, plan) && plan != []
    ensures PlanRest(L, batch, done + {plan[0].pid}, plan[1..])
  {
    var rest := plan[1..];
    assert forall x :: 0 <= x < |rest| ==> rest[x] == plan[x + 1];
    forall pid | PageId(L, pid) && Touches(batch, pid) && pid !in done + {plan[0].pid}
      ensures Planned(rest, pid)
    {
      assert Planned(plan, pid);
      var x :| 0 <= x < |plan| && plan[x].pid == pid;
      assert rest[x - 1].pid == pid;
    }
  }

  /** Child pages are longer, so the plan has put them first. */
  lemma ChildrenFirst(L: nat, batch: map<Path, Bytes>, done: set<Path>, plan: seq<Work>, q: Path)
    requires PlanRest(L, batch, done, plan) && plan != []
    requires PageId(L, q) && Touches(batch, q) && |q| > |plan[0].pid|
    ensures q in done
  {
  }

  /* ---- The loop over the plan ---- */

  ghost predicate PageDone(H: Hash, L: nat, s: State, g: Snaps, h: seq<Commit>, cm: Commit, pid: Path, loss: Loss) {
    PageInv(H, L, s, g, h + [cm], pid, loss) && ChildDone(H, L, s, h + [cm], cm.version, pid, loss)
  }

  ghost predicate PageWaits(H: Hash, L: nat, s: State, g: Snaps, h: seq<Commit>, cm: Commit, pid: Path, loss: Loss) {
    PageInv(H, L, s, g, h, pid, loss) && RefilledAt(s, pid, cm.batch, loss)
  }

  /** Pages in done agree with the longer history, the others still with the shorter. */
  ghost predicate MidInv(H: Hash, L: nat, s: State, g: Snaps, h: seq<Commit>, cm: Commit, done: set<Path>, loss: Loss) {
    forall pid :: PageId(L, pid) ==> PageMid(H, L, s, g, h, cm, done, pid, loss)
  }

  ghost predicate PageMid(H: Hash, L: nat, s: State, g: Snaps, h: seq<Commit>, cm: Commit, done: set<Path>, pid: Path,
                          loss: Loss)
  {
    if pid in done then PageDone(H, L, s, g, h, cm, pid, loss) else PageWaits(H, L, s, g, h, cm, pid, loss)
  }

  lemma EvictKeeps(H: Hash, L: nat, s: State, g: Snaps, h: seq<Commit>, cm: Commit, done: set<Path>,
                   keys: set<CacheKey>, loss: Loss)
    requires MidInv(H, L, s, g, h, cm, done, loss)
    ensures MidInv(H, L, Evict(s, keys, cm.version), g, h, cm, done, loss)
  {
    var s' := Evict(s, keys, cm.version);
    forall pid | PageId(L, pid)
      ensures PageMid(H, L, s', g, h, cm, done, pid, loss)
    {
      if pid in done {
        assert PageDone(H, L, s, g, h, cm, pid, loss);
        CacheShrinks(H, L, s, s', g, h + [cm], pid, loss);
      } else {
        EvictWaits(H, L, s, g, h, cm, pid, keys, loss);
      }
    }
  }

  lemma FrameKeeps(H: Hash, L: nat, s: State, s': State, g: Snaps, g': Snaps, h: seq<Commit>, pid: Path, q: Path,
                   loss: Loss)
    requires PageId(L, q) && q != pid && OneFrame(s, s', pid) && SnapsOf(g', q) == SnapsOf(g, q)
    requires PageInv(H, L, s, g, h, q, loss)
    ensures PageInv(H, L, s', g', h, q, loss)
  {
    var c, snaps := ChainOf(s, q), SnapsOf(g, q);
    SnapsLog(H, L, h, s.log, s'.log, q, snaps, loss);
    forall v | CacheKey(v, q) in s'.cache ensures CacheInv(s'.cache[CacheKey(v, q)], c, snaps, v, loss) {
      assert CacheInv(s.cache[CacheKey(v, q)], c, snaps, v, loss);
    }
  }

  lemma FrameDone(H: Hash, L: nat, s: State, s': State, g: Snaps, g': Snaps, h: seq<Commit>, cm: Commit, pid: Path,
                  q: Path, loss: Loss)
    requires PageId(L, q) && q != pid && OneFrame(s, s', pid) && SnapsOf(g', q) == SnapsOf(g, q)
    requires PageDone(H, L, s, g, h, cm, q, loss)
    ensures PageDone(H, L, s', g', h, cm, q, loss)
  {
    FrameKeeps(H, L, s, s', g, g', h + [cm], pid, q, loss);
    assert CacheKey(cm.version, q) in s'.cache && s'.cache[CacheKey(cm.version, q)] == s.cache[CacheKey(cm.version, q)];
  }

  lemma FrameWaits(H: Hash, L: nat, s: State, s': State, g: Snaps, g': Snaps, h: seq<Commit>, cm: Commit, pid: Path,
                   q: Path, loss: Loss)
    requires PageId(L, q) && q != pid && OneFrame(s, s', pid) && SnapsOf(g', q) == SnapsOf(g, q)
    requires PageWaits(H, L, s, g, h, cm, q, loss)
    ensures PageWaits(H, L, s', g', h, cm, q, loss)
  {
    FrameKeeps(H, L, s, s', g, g', h, pid, q, loss);
  }

  lemma EvictWaits(H: Hash, L: nat, s: State, g: Snaps, h: seq<Commit>, cm: Commit, pid: Path, keys: set<CacheKey>,
                   loss: Loss)
    requires PageId(L, pid) && PageWaits(H, L, s, g, h, cm, pid, loss)
    ensures PageWaits(H, L, Evict(s, keys, cm.version), g, h, cm, pid, loss)
  {
    CacheShrinks(H, L, s, Evict(s, keys, cm.version), g, h, pid, loss);
  }

  lemma ChildPageId(L: nat, pid: Path, nibs: Path)
    requires PageId(L, pid) && Kind(L, pid) == 2 && |nibs| == 2
    ensures PageId(L, pid + nibs) && |pid + nibs| > |pid|
  {
  }

  lemma HasWork(L: nat, batch: map<Path, Bytes>, plan: seq<Work>, x: nat)
    requires IsPlan(L, batch, plan) && x < |plan|
    ensures WorkFor(L, batch, plan[x])
  {
  }

  lemma HeadWork(L: nat, batch: map<Path, Bytes>, done: set<Path>, plan: seq<Work>)
    requires PlanRest(L, batch, done, plan) && plan != []
    ensures WorkFor(L, batch, plan[0])
  {
  }

  lemma HeadChild(L: nat, batch: map<Path, Bytes>, done: set<Path>, plan: seq<Work>, work: Work, x: nat)
    requires PlanRest(L, batch, done, plan) && plan != [] && work == plan[0]
    requires x < |work.nibs| && PageId(L, work.pid) && Kind(L, work.pid) == 2
    requires |work.nibs[x]| == 2 && Touches(batch, work.pid + work.nibs[x])
    ensures PageId(L, work.pid + work.nibs[x]) && work.pid + work.nibs[x] in done
  {
    ChildPageId(L, work.pid, work.nibs[x]);
    ChildrenFirst(L, batch, done, plan, work.pid + work.nibs[x]);
  }

  lemma HeadChildrenDone(H: Hash, L: nat, s: State, g: Snaps, h: seq<Commit>, cm: Commit, done: set<Path>,
                         plan: seq<Work>, loss: Loss)
    requires PlanRest(L, cm.batch, done, plan) && plan != [] && MidInv(H, L, s, g, h, cm, done, loss)
    ensures PageId(L, plan[0].pid) && ChildrenDone(H, L, s, h + [cm], cm.version, plan[0], loss)
  {
    var work := plan[0];
    HeadWork(L, cm.batch, done, plan);
    forall x | Kind(L, work.pid) == 2 && 0 <= x < |work.nibs| && |work.nibs[x]| == 2
      ensures ChildDone(H, L, s, h + [cm], cm.version, work.pid + work.nibs[x], loss)
    {
      HeadChild(L, cm.batch, done, plan, work, x);
      assert PageDone(H, L, s, g, h, cm, work.pid + work.nibs[x], loss);
    }
  }

  /** The snapshots after one iteration. */
  function SnapsNext(g: Snaps, s: State, w: nat, pid: Path): Snaps
    requires CacheKey(w, pid) in s.cache
  {
    g[pid := SnapsOf(g, pid)[w := s.cache[CacheKey(w, pid)]]]
  }

  /** s' is s after the page pid was brought to the new commit. */
  ghost predicate OneDone(H: Hash, L: nat, s: State, s': State, g: Snaps, h: seq<Commit>, cm: Commit, pid: Path,
                          loss: Loss)
  {
    OneFrame(s, s', pid) && CacheKey(cm.version, pid) in s'.cache &&
    PageDone(H, L, s', SnapsNext(g, s', cm.version, pid), h, cm, pid, loss)
  }

  /** One iteration, eviction included. */
  lemma IterationDone(H: Hash, L: nat, s: State, g: Snaps, h: seq<Commit>, cm: Commit, done: set<Path>,
                      plan: seq<Work>, keys: set<CacheKey>, loss: Loss)
    requires ValidHistory(h + [cm], L) && ValidHistory(h, L) && s.put == cm.batch
    requires PlanRest(L, cm.batch, done, plan) && plan != [] && MidInv(H, L, s, g, h, cm, done, loss)
    ensures var s1 := Evict(s, keys, cm.version);
            PageId(L, plan[0].pid) && MidInv(H, L, s1, g, h, cm, done, loss) &&
            OneDone(H, L, s1, CommitOne(H, L, s1, cm.version, plan[0].pid, plan[0].nibs), g, h, cm, plan[0].pid, loss)
  {
    var s1 := Evict(s, keys, cm.version);
    assert WorkFor(L, cm.batch, plan[0]) && plan[0].pid !in done;
    EvictKeeps(H, L, s, g, h, cm, done, keys, loss);
    HeadChildrenDone(H, L, s1, g, h, cm, done, plan, loss);
    assert PageWaits(H, L, s1, g, h, cm, plan[0].pid, loss);
    OneKeeps(H, L, s1, g, h, cm, plan[0], loss);
  }

  lemma NextSnaps(H: Hash, L: nat, s: State, s': State, g: Snaps, h: seq<Commit>, cm: Commit, pid: Path, loss: Loss)
    returns (g': Snaps)
    requires PageId(L, pid) && OneDone(H, L, s, s', g, h, cm, pid, loss)
    ensures CacheKey(cm.version, pid) in s'.cache && g' == SnapsNext(g, s', cm.version, pid)
    ensures PageDone(H, L, s', g', h, cm, pid, loss) && forall q :: q != pid ==> SnapsOf(g', q) == SnapsOf(g, q)
  {
    g' := SnapsNext(g, s', cm.version, pid);
  }

  lemma OneDoneKeeps(H: Hash, L: nat, s: State, s': State, g: Snaps, h: seq<Commit>, cm: Commit, done: set<Path>,
                     pid: Path, loss: Loss)
    requires PageId(L, pid) && MidInv(H, L, s, g, h, cm, done, loss) && OneDone(H, L, s, s', g, h, cm, pid, loss)
    ensures MidInv(H, L, s', SnapsNext(g, s', cm.version, pid), h, cm, done + {pid}, loss)
  {
    var g' := NextSnaps(H, L, s, s', g, h, cm, pid, loss);
    OthersKeep(H, L, s, s', g, g', h, cm, done, pid, loss);
  }

  lemma IterationKeeps(H: Hash, L: nat, s: State, g: Snaps, h: seq<Commit>, cm: Commit, done: set<Path>,
                       plan: seq<Work>, keys: set<CacheKey>, loss: Loss) returns (g': Snaps)
    requires ValidHistory(h + [cm], L) && ValidHistory(h, L) && s.put == cm.batch
    requires PlanRest(L, cm.batch, done, plan) && plan != [] && MidInv(H, L, s, g, h, cm, done, loss)
    ensures var s' := CommitOne(H, L, Evict(s, keys, cm.version), cm.version, plan[0].pid, plan[0].nibs);
            s'.put == s.put && MidInv(H, L, s', g', h, cm, done + {plan[0].pid}, loss)
  {
    var s1 := Evict(s, keys, cm.version);
    var s' := CommitOne(H, L, s1, cm.version, plan[0].pid, plan[0].nibs);
    IterationDone(H, L, s, g, h, cm, done, plan, keys, loss);
    OneDoneKeeps(H, L, s1, s', g, h, cm, done, plan[0].pid, loss);
    g' := SnapsNext(g, s', cm.version, plan[0].pid);
  }

  lemma CommitAllUnfold(H: Hash, L: nat, s: State, w: nat, plan: seq<Work>, evict: seq<set<CacheKey>>)
    requires |evict| == |plan| && plan != []
    ensures CommitAll(H, L, s, w, plan, evict) ==
            CommitAll(H, L, CommitOne(H, L, Evict(s, evict[0], w), w, plan[0].pid, plan[0].nibs), w, plan[1..],
                evict[1..])
  {
  }

  /** One iteration leaves a shorter plan, from which the same end state is reached. */
  lemma NextIteration(H: Hash, L: nat, s: State, g: Snaps, h: seq<Commit>, cm: Commit, done: set<Path>,
                      plan: seq<Work>, evict: seq<set<CacheKey>>, loss: Loss)
    returns (s1: State, g1: Snaps, done1: set<Path>)
    requires ValidHistory(h + [cm], L) && ValidHistory(h, L) && s.put == cm.batch &&
             |evict| == |plan|
    requires PlanRest(L, cm.batch, done, plan) && plan != [] && MidInv(H, L, s, g, h, cm, done, loss)
    ensures s1 == CommitOne(H, L, Evict(s, evict[0], cm.version), cm.version, plan[0].pid, plan[0].nibs)
    ensures s1.put == cm.batch && PlanRest(L, cm.batch, done1, plan[1..])
    ensures MidInv(H, L, s1, g1, h, cm, done1, loss) && done1 == done + {plan[0].pid}
    ensures done1 + PidsOf(plan[1..]) == done + PidsOf(plan)
    ensures CommitAll(H, L, s, cm.version, plan, evict) == CommitAll(H, L, s1, cm.version, plan[1..], evict[1..])
  {
    s1 := CommitOne(H, L, Evict(s, evict[0], cm.version), cm.version, plan[0].pid, plan[0].nibs);
    g1 := IterationKeeps(H, L, s, g, h, cm, done, plan, evict[0], loss);
    done1 := done + {plan[0].pid};
    PlanTail(L, cm.batch, done, plan);
    CommitAllUnfold(H, L, s, cm.version, plan, evict);
    DoneTail(done, plan);
  }

  /** The loop invariant of CalcRootHash, from any point of the plan to its end. */
  lemma {:induction false} LoopKeeps(H: Hash, L: nat, s: State, g: Snaps, h: seq<Commit>, cm: Commit, done: set<Path>,
                                     plan: seq<Work>, evict: seq<set<CacheKey>>, loss: Loss)
    returns (s': State, g': Snaps, all: set<Path>)
    requires ValidHistory(h + [cm], L) && ValidHistory(h, L) && s.put == cm.batch &&
             |evict| == |plan|
    requires PlanRest(L, cm.batch, done, plan) && MidInv(H, L, s, g, h, cm, done, loss)
    ensures s' == CommitAll(H, L, s, cm.version, plan, evict) && all == done + PidsOf(plan)
    ensures MidInv(H, L, s', g', h, cm, all, loss)
    decreases |plan|
  {
    if plan == [] {
      s', g', all := s, g, done;
    } else {
      var s1, g1, done1 := NextIteration(H, L, s, g, h, cm, done, plan, evict, loss);
      s', g', all := LoopKeeps(H, L, s1, g1, h, cm, done1, plan[1..], evict[1..], loss);
    }
  }

  function PidsOf(plan: seq<Work>): set<Path> {
    set x | 0 <= x < |plan| :: plan[x].pid
  }

  lemma DoneTail(done: set<Path>, plan: seq<Work>)
    requires plan != []
    ensures done + {plan[0].pid} + PidsOf(plan[1..]) == done + PidsOf(plan)
  {
  }

  lemma OtherKeeps(H: Hash, L: nat, s: State, s': State, g: Snaps, g': Snaps, h: seq<Commit>, cm: Commit,
                   done: set<Path>, pid: Path, q: Path, loss: Loss)
    requires PageId(L, q) && q != pid && OneFrame(s, s', pid) && SnapsOf(g', q) == SnapsOf(g, q)
    requires PageMid(H, L, s, g, h, cm, done, q, loss)
    ensures PageMid(H, L, s', g', h, cm, done + {pid}, q, loss)
  {
    if q in done {
      FrameDone(H, L, s, s', g, g', h, cm, pid, q, loss);
    } else {
      FrameWaits(H, L, s, s', g, g', h, cm, pid, q, loss);
    }
  }

  lemma OthersKeep(H: Hash, L: nat, s: State, s': State, g: Snaps, g': Snaps, h: seq<Commit>, cm: Commit,
                   done: set<Path>, pid: Path, loss: Loss)
    requires PageId(L, pid) && MidInv(H, L, s, g, h, cm, done, loss) && OneFrame(s, s', pid)
    requires PageDone(H, L, s', g', h, cm, pid, loss)
    requires forall q :: q != pid ==> SnapsOf(g', q) == SnapsOf(g, q)
    ensures MidInv(H, L, s', g', h, cm, done + {pid}, loss)
  {
    forall q | PageId(L, q)
      ensures PageMid(H, L, s', g', h, cm, done + {pid}, q, loss)
    {
      if q != pid { OtherKeeps(H, L, s, s', g, g', h, cm, done, pid, q, loss); }
    }
  }

  /* ---- A whole commit ---- */

  lemma Untouched(H: Hash, L: nat, s: State, g: Snaps, h: seq<Commit>, cm: Commit, pid: Path, loss: Loss)
    requires PageId(L, pid) && ValidHistory(h + [cm], L) && ValidHistory(h, L) && !Touches(cm.batch, pid)
    requires PageInv(H, L, s, g, h, pid, loss)
    ensures PageInv(H, L, s, g, h + [cm], pid, loss)
  {
    SnapsUntouched(H, L, h, cm, s.log, pid, SnapsOf(g, pid), loss);
    TouchAppend(h, cm, pid);
  }

  lemma HistoryGrows(h: seq<Commit>, cm: Commit, L: nat)
    requires ValidHistory(h, L) && cm.version > 0 && cm.batch != map[] && (forall k :: k in cm.batch ==> |k| == L)
    requires Latest(h) < cm.version
    ensures ValidHistory(h + [cm], L)
  {
    var h' := h + [cm];
    forall i, j | 0 <= i < j < |h'| ensures h'[i].version < h'[j].version {
      if j == |h| { assert i == |h| - 1 || h[i].version < Latest(h); }
    }
  }

  /** Of every page that a commit of the buffered batch may open, the batch reaches the
      children whose slots were lost. */
  ghost predicate Refills(L: nat, s: State, loss: Loss) {
    forall pid :: PageId(L, pid) ==> RefilledAt(s, pid, s.put, loss)
  }

  /** CalcRootHash takes a trie that agrees with a history to one that agrees with the
      history extended by the buffered batch, whatever the cache drops meanwhile. */
  lemma CommitKeepsTrie(H: Hash, L: nat, s: State, g: Snaps, h: seq<Commit>, w: nat, plan: seq<Work>,
                        evict: seq<set<CacheKey>>, loss: Loss)
    returns (g': Snaps)
    requires TrieInv(H, L, s, g, h, loss) && s.put != map[] && Latest(h) < w
    requires IsPlan(L, s.put, plan) && |evict| == |plan| && Refills(L, s, loss)
    ensures TrieInv(H, L, CalcRootHash(H, L, s, w, plan, evict), g', h + [Commit(w, s.put)], loss)
  {
    var cm := Commit(w, s.put);
    HistoryGrows(h, cm, L);
    var s1, all;
    s1, g', all := LoopKeeps(H, L, s, g, h, cm, {}, plan, evict, loss);
    forall pid | PageId(L, pid) ensures PageInv(H, L, s1.(put := map[]), g', h + [cm], pid, loss) {
      FinishPage(H, L, s1, g', h, cm, plan, pid, loss);
    }
  }

  lemma FinishPage(H: Hash, L: nat, s: State, g: Snaps, h: seq<Commit>, cm: Commit, plan: seq<Work>, pid: Path,
                   loss: Loss)
    requires PageId(L, pid) && ValidHistory(h + [cm], L) && ValidHistory(h, L) && IsPlan(L, cm.batch, plan)
    requires MidInv(H, L, s, g, h, cm, {} + PidsOf(plan), loss)
    ensures PageInv(H, L, s.(put := map[]), g, h + [cm], pid, loss)
  {
    if pid in {} + PidsOf(plan) {
      assert PageDone(H, L, s, g, h, cm, pid, loss);
    } else {
      assert !Touches(cm.batch, pid) by {
      }
      Untouched(H, L, s, g, h, cm, pid, loss);
    }
  }

  /* ---- Runs ---- */

  /** What a client or the environment may do. Reload stands for flushing stored pages to
      files and re-reading active delta pages from the pool's file. */
  datatype Op =
    | DoPut(version: nat, key: Path, value: Bytes)
    | DoDelete(version: nat, key: Path)
    | DoCommit(version: nat, plan: seq<Work>, evict: seq<set<CacheKey>>)
    | DoRead(version: nat, pid: Path)
    | DoEvict(keys: set<CacheKey>)
    | DoReload(chains: map<Path, Chain>)

  /** Keys have length L, committed versions increase, copies are faithful; where copies lose
      root slots, commits reach the children whose slots were lost. */
  ghost predicate Enabled(L: nat, s: State, h: seq<Commit>, op: Op, loss: Loss) {
    match op
    case DoPut(_, key, _) => |key| == L
    case DoDelete(_, key) => |key| == L
    case DoCommit(w, plan, evict) =>
      Latest(h) < w && IsPlan(L, s.put, plan) && |evict| == |plan| &&
      (loss.Slotless? ==> Refills(L, s, loss))
    case DoRead(_, pid) => PageId(L, pid)
    case DoEvict(_) => true
    case DoReload(chains) =>
      s.chains.Keys <= chains.Keys &&
      forall pid :: pid in chains && PageId(L, pid) ==> ChainCopy(ChainOf(s, pid), chains[pid], loss)
  }

  function Apply(H: Hash, L: nat, s: State, op: Op): State {
    match op
    case DoPut(version, key, value) => Put(s, version, key, value)
    case DoDelete(version, key) => Delete(s, version, key)
    case DoCommit(w, plan, evict) =>
      if |evict| == |plan| && s.put != map[] then CalcRootHash(H, L, s, w, plan, evict) else s
    case DoRead(version, pid) => GetPage(s, version, pid).1
    case DoEvict(keys) => s.(cache := s.cache - keys)
    case DoReload(chains) => s.(chains := chains)
  }

  /** The history after an operation: a commit with nothing buffered records nothing. */
  function Recorded(h: seq<Commit>, s: State, op: Op): seq<Commit> {
    if op.DoCommit? && s.put != map[] then h + [Commit(op.version, s.put)] else h
  }

  lemma CopyRecoverable(c: Chain, d: Chain, v: nat, loss: Loss)
    requires Linked(c.stored) && Linked(d.stored) && ChainCopy(c, d, loss)
    ensures Recoverable(d, v) <==> Recoverable(c, v)
  {
    match FirstAbove(c.frozen, v)
    case Some(r) => if Key(r, true) in c.stored { CopyChain(c, d, Key(r, true), loss); }
    case None =>
  }

  lemma ReloadCache(cache: map<CacheKey, Page>, pid: Path, c: Chain, d: Chain, snaps: map<nat, Page>, loss: Loss)
    requires Linked(c.stored) && Linked(d.stored) && ChainCopy(c, d, loss) && CacheOK(cache, pid, c, snaps, loss)
    ensures CacheOK(cache, pid, d, snaps, loss)
  {
    forall v | CacheKey(v, pid) in cache ensures CacheInv(cache[CacheKey(v, pid)], d, snaps, v, loss) {
      assert CacheInv(cache[CacheKey(v, pid)], c, snaps, v, loss);
      if Recoverable(d, v) { CopyRecoverable(c, d, v, loss); }
    }
  }

  lemma ReloadPage(H: Hash, L: nat, c: Chain, d: Chain, snaps: map<nat, Page>, cache: map<CacheKey, Page>, log: Log,
                   h: seq<Commit>, pid: Path, loss: Loss)
    requires PageId(L, pid) && PageOK(H, L, c, snaps, cache, log, h, pid, loss) && ChainCopy(c, d, loss)
    ensures PageOK(H, L, d, snaps, cache, log, h, pid, loss)
  {
    CopyKeeps(c, d, snaps, Kind(L, pid), c.cur, loss);
    ReloadCache(cache, pid, c, d, snaps, loss);
  }

  lemma ReloadKeeps(H: Hash, L: nat, s: State, g: Snaps, h: seq<Commit>, chains: map<Path, Chain>, pid: Path,
                    loss: Loss)
    requires PageId(L, pid) && PageInv(H, L, s, g, h, pid, loss)
    requires s.chains.Keys <= chains.Keys && (pid in chains ==> ChainCopy(ChainOf(s, pid), chains[pid], loss))
    ensures PageInv(H, L, s.(chains := chains), g, h, pid, loss)
  {
    var c, d := ChainOf(s, pid), ChainOf(s.(chains := chains), pid);
    if pid in chains {
      ReloadPage(H, L, c, d, SnapsOf(g, pid), s.cache, s.log, h, pid, loss);
    } else {
      assert c == d == NEW_CHAIN;
    }
  }

  /** A state agrees with a history: some snapshots tie the two together. */
  ghost predicate Agrees(H: Hash, L: nat, s: State, h: seq<Commit>, loss: Loss) {
    exists g: Snaps :: TrieInv(H, L, s, g, h, loss)
  }

  lemma PutKeeps(H: Hash, L: nat, s: State, g: Snaps, h: seq<Commit>, current: nat, put: map<Path, Bytes>, loss: Loss)
    requires TrieInv(H, L, s, g, h, loss) && forall k :: k in put ==> |k| == L
    ensures TrieInv(H, L, s.(current := current, put := put), g, h, loss)
  {
    var s' := s.(current := current, put := put);
    forall pid | PageId(L, pid) ensures PageInv(H, L, s', g, h, pid, loss) {
      assert PageInv(H, L, s, g, h, pid, loss);
    }
  }

  lemma EvictKeepsTrie(H: Hash, L: nat, s: State, g: Snaps, h: seq<Commit>, keys: set<CacheKey>, loss: Loss)
    requires TrieInv(H, L, s, g, h, loss)
    ensures TrieInv(H, L, s.(cache := s.cache - keys), g, h, loss)
  {
    forall pid | PageId(L, pid) ensures PageInv(H, L, s.(cache := s.cache - keys), g, h, pid, loss) {
      CacheShrinks(H, L, s, s.(cache := s.cache - keys), g, h, pid, loss);
    }
  }

  lemma ReloadKeepsTrie(H: Hash, L: nat, s: State, g: Snaps, h: seq<Commit>, chains: map<Path, Chain>, loss: Loss)
    requires TrieInv(H, L, s, g, h, loss)
    requires s.chains.Keys <= chains.Keys
    requires forall q :: q in chains && PageId(L, q) ==> ChainCopy(ChainOf(s, q), chains[q], loss)
    ensures TrieInv(H, L, s.(chains := chains), g, h, loss)
  {
    forall pid | PageId(L, pid) ensures PageInv(H, L, s.(chains := chains), g, h, pid, loss) {
      ReloadKeeps(H, L, s, g, h, chains, pid, loss);
    }
  }

  lemma ApplyKeeps(H: Hash, L: nat, s: State, h: seq<Commit>, op: Op, loss: Loss)
    requires Agrees(H, L, s, h, loss) && Enabled(L, s, h, op, loss)
    ensures Agrees(H, L, Apply(H, L, s, op), Recorded(h, s, op), loss)
  {
    var g: Snaps :| TrieInv(H, L, s, g, h, loss);
    match op
    case DoPut(version, key, value) =>
      PutKeeps(H, L, s, g, h, version, s.put[key := value], loss);
    case DoDelete(version, key) =>
      PutKeeps(H, L, s, g, h, version, s.put[key := []], loss);
    case DoCommit(w, plan, evict) =>
      if s.put != map[] {
        var g' := CommitKeepsTrie(H, L, s, g, h, w, plan, evict, loss);
      }
    case DoRead(version, pid) => GetPageKeeps(H, L, s, g, h, version, pid, loss);
    case DoEvict(keys) => EvictKeepsTrie(H, L, s, g, h, keys, loss);
    case DoReload(chains) => ReloadKeepsTrie(H, L, s, g, h, chains, loss);
  }

  function StateAfter(H: Hash, L: nat, ops: seq<Op>): State {
    if ops == [] then NEW_TRIE else Apply(H, L, StateAfter(H, L, ops[..|ops| - 1]), ops[|ops| - 1])
  }

  function HistoryAfter(H: Hash, L: nat, ops: seq<Op>): seq<Commit> {
    if ops == [] then []
    else var before := ops[..|ops| - 1];
         Recorded(HistoryAfter(H, L, before), StateAfter(H, L, before), ops[|ops| - 1])
  }

  /** Every operation of the run is enabled where it happens. */
  ghost predicate IsRun(H: Hash, L: nat, ops: seq<Op>, loss: Loss) {
    ops == [] ||
    var before := ops[..|ops| - 1];
    IsRun(H, L, before, loss) && Enabled(L, StateAfter(H, L, before), HistoryAfter(H, L, before), ops[|ops| - 1], loss)
  }

  /** One more operation. */
  lemma RunSnoc(H: Hash, L: nat, ops: seq<Op>, op: Op, loss: Loss)
    ensures IsRun(H, L, ops + [op], loss) <==>
            IsRun(H, L, ops, loss) && Enabled(L, StateAfter(H, L, ops), HistoryAfter(H, L, ops), op, loss)
    ensures StateAfter(H, L, ops + [op]) == Apply(H, L, StateAfter(H, L, ops), op)
    ensures HistoryAfter(H, L, ops + [op]) == Recorded(HistoryAfter(H, L, ops), StateAfter(H, L, ops), op)
  {
    var all := ops + [op];
    assert all[..|all| - 1] == ops && all[|all| - 1] == op;
  }

  lemma NewPageOK(H: Hash, L: nat, pid: Path, loss: Loss)
    requires PageId(L, pid)
    ensures PageOK(H, L, NEW_CHAIN, map[], map[], EMPTY_LOG, [], pid, loss)
  {
    NewChainInv(Kind(L, pid), loss);
    assert LastTouch([], pid) == 0;
  }

  lemma NewTrieInv(H: Hash, L: nat, loss: Loss)
    ensures TrieInv(H, L, NEW_TRIE, NO_SNAPS, [], loss)
  {
    forall pid | PageId(L, pid) ensures PageInv(H, L, NEW_TRIE, NO_SNAPS, [], pid, loss) {
      NewPageOK(H, L, pid, loss);
    }
  }

  /** Every reachable state agrees with the history of its run. */
  lemma {:induction false} RunAgrees(H: Hash, L: nat, ops: seq<Op>, loss: Loss)
    requires IsRun(H, L, ops, loss)
    ensures Agrees(H, L, StateAfter(H, L, ops), HistoryAfter(H, L, ops), loss)
  {
    if ops == [] {
      NewTrieInv(H, L, loss);
    } else {
      var before := ops[..|ops| - 1];
      RunAgrees(H, L, before, loss);
      ApplyKeeps(H, L, StateAfter(H, L, before), HistoryAfter(H, L, before), ops[|ops| - 1], loss);
    }
  }
}
