/** A whole commit on the pool: what it hands out are faithful copies, what is stored fits,
    and afterwards the pool mirrors the trie again. */
module PoolCommits {
  import opened Types
  import opened Pages
  import opened Chains
  import opened ChainInvariant
  import opened PageCommits
  import opened Copies
  import opened Fields
  import opened Sizes
  import opened ReadBacks
  import opened History
  import opened PageSpecs
  import opened TrieState
  import opened TrieInvariant
  import opened TrieRuns
  import opened TrieSteps
  import opened TrieSizes
  import opened TriePool
  import RootSlots
  import P = DeltaPool

  /** The trie agrees with its history, and all it holds fits its pages and fields. */
  ghost predicate FitsAll(H: Hash, L: nat, s: State, h: seq<Commit>, loss: FileLoss) {
    Agrees(H, L, s, h, loss) && FitState(L, s, Carried(loss)) && SizedState(L, s) &&
    (loss.Slotless? ==> WideHash(H))
  }

  /** The quantifier keeps the definition out of the way until it is mentioned. */
  ghost predicate Fitting(H: Hash, L: nat, s: State, h: seq<Commit>, loss: FileLoss) {
    forall t: State :: t == s ==> FitsAll(H, L, t, h, loss)
  }

  lemma FittingChain(H: Hash, L: nat, s: State, h: seq<Commit>, pid: Path, loss: FileLoss)
    requires Fitting(H, L, s, h, loss) && PageId(L, pid)
    ensures var c := ChainOf(s, pid);
            FitChain(HexString(pid), c, Carried(loss)) && Sized(c) && Structure(c, Kind(L, pid), c.cur) && Counters(c)
  {
    assert FitsAll(H, L, s, h, loss);
    var g: Snaps :| TrieInv(H, L, s, g, h, loss);
    assert PageInv(H, L, s, g, h, pid, loss) && Sized(ChainOf(s, pid));
  }

  /** The active delta page of any page id can be stored in the pool. */
  lemma ActiveStorable(H: Hash, L: nat, s: State, h: seq<Commit>, pid: Path, loss: FileLoss)
    requires Fitting(H, L, s, h, loss) && PageId(L, pid) && |pid| <= 610
    ensures Storable(pid, ChainOf(s, pid).active)
  {
    FittingChain(H, L, s, h, pid, loss);
    FitDeltaFits(HexString(pid), ChainOf(s, pid).active, loss);
  }

  /* ---- What the pool hands out ---- */

  /** For every page id the last page stored is the active one, up to a round trip. */
  ghost predicate MirrorAt(s: State, last: map<Bytes, DeltaPage>, pid: Path, loss: FileLoss) {
    var from := P.LastOf(last, HexString(pid));
    P.Settled(ChainOf(s, pid).active, from) && FitDelta(from, Carried(loss))
  }

  ghost predicate Mirrors(L: nat, s: State, last: map<Bytes, DeltaPage>, loss: FileLoss) {
    forall pid :: PageId(L, pid) ==> MirrorAt(s, last, pid, loss)
  }

  ghost predicate CopiesActive(d: DeltaPage, a: DeltaPage, loss: FileLoss) {
    d.last == a.last && d.count == a.count && d.bcount < TB && SameItems(d.items, a.items, loss) &&
    FitDelta(d, Carried(loss))
  }

  lemma SettledAlike(d: DeltaPage, a: DeltaPage, from: DeltaPage, loss: FileLoss)
    requires FromPool(d, from) && P.Settled(a, from) && FitDelta(from, Carried(loss))
    ensures CopiesActive(d, a, loss)
  {
    ItemsBackSame(from.items, loss);
  }

  ghost predicate ActivesOK(L: nat, s: State, actives: Actives, loss: FileLoss) {
    forall pid :: pid in actives ==> PageId(L, pid) && CopiesActive(actives[pid], ChainOf(s, pid).active, loss)
  }

  lemma CopyWithActive(c: Chain, d: DeltaPage, loss: FileLoss)
    requires CopiesActive(d, c.active, loss)
    ensures ChainCopy(c, c.(active := d), loss)
  {
    forall k | k in c.stored ensures CopyOf(c.stored[k], c.stored[k], loss) { CopySame(c.stored[k], loss); }
  }

  /** Reading active delta pages from the pool is a reload. */
  lemma ActivesEnabled(L: nat, s: State, h: seq<Commit>, actives: Actives, loss: FileLoss)
    requires ActivesOK(L, s, actives, loss)
    ensures Enabled(L, s, h, DoReload(ActiveChains(s, actives)), loss)
  {
    var chains := ActiveChains(s, actives);
    forall pid | pid in chains && PageId(L, pid) ensures ChainCopy(ChainOf(s, pid), chains[pid], loss) {
      if pid in actives { CopyWithActive(ChainOf(s, pid), actives[pid], loss); }

    }
  }

  lemma ActivesFit(L: nat, s: State, actives: Actives, loss: FileLoss)
    requires ActivesOK(L, s, actives, loss) && FitState(L, s, Carried(loss))
    ensures FitChains(L, ActiveChains(s, actives), Carried(loss))
  {
    var chains := ActiveChains(s, actives);
    forall pid | pid in chains && PageId(L, pid) ensures FitChain(HexString(pid), chains[pid], Carried(loss)) {
      assert FitChain(HexString(pid), ChainOf(s, pid), Carried(loss));
    }
  }

  lemma WideZero(loss: FileLoss)
    ensures Num(0, Carried(loss))
  {
    Widths();
  }

  lemma ReloadFitting(H: Hash, L: nat, s: State, h: seq<Commit>, chains: map<Path, Chain>, loss: FileLoss)
    requires Fitting(H, L, s, h, loss) && Enabled(L, s, h, DoReload(chains), loss) &&
             FitChains(L, chains, Carried(loss))
    ensures Fitting(H, L, s.(chains := chains), h, loss)
  {
    assert FitsAll(H, L, s, h, loss);
    WideZero(loss);
    TrieRuns.ApplyKeeps(H, L, s, h, DoReload(chains), loss);
    ApplySized(H, L, s, h, DoReload(chains), loss);
    ReloadFits(L, s, chains, Carried(loss));
    assert FitsAll(H, L, s.(chains := chains), h, loss);
  }

  lemma ActivesFitting(H: Hash, L: nat, s: State, h: seq<Commit>, actives: Actives, loss: FileLoss)
    requires Fitting(H, L, s, h, loss) && ActivesOK(L, s, actives, loss)
    ensures Fitting(H, L, WithActives(s, actives), h, loss)
  {
    assert FitsAll(H, L, s, h, loss);
    ActivesEnabled(L, s, h, actives, loss);
    ActivesFit(L, s, actives, loss);
    ReloadFitting(H, L, s, h, ActiveChains(s, actives), loss);
  }

  /* ---- Commits ---- */

  /** The commit is enabled, and its version and what it writes to the log fit. */
  ghost predicate CommitPossible(L: nat, s: State, h: seq<Commit>, w: nat, plan: seq<Work>, evict: seq<set<CacheKey>>,
                                 loss: FileLoss) {
    && s.put != map[] && Enabled(L, s, h, DoCommit(w, plan, evict), loss)
    && Num(w, Carried(loss)) && LogBelow(PlanLog(s.put, s.log, w, plan), Carried(loss)) && L <= 610
  }

  ghost predicate CommitReady(L: nat, s: State, h: seq<Commit>, w: nat, plan: seq<Work>, evict: seq<set<CacheKey>>,
                              loss: FileLoss) {
    forall t: State :: t == s ==> CommitPossible(L, t, h, w, plan, evict, loss)
  }

  lemma ReadyIs(L: nat, s: State, h: seq<Commit>, w: nat, plan: seq<Work>, evict: seq<set<CacheKey>>, loss: FileLoss)
    requires CommitReady(L, s, h, w, plan, evict, loss)
    ensures s.put != map[] && IsPlan(L, s.put, plan) && |evict| == |plan| && L <= 610
  {
    assert CommitPossible(L, s, h, w, plan, evict, loss);
  }

  /** A load does not look at the counts of the active delta page. */
  lemma ActiveLoads(c: Chain, d: DeltaPage, current: nat, v: nat)
    requires CopiesActive(d, c.active, Slotless)
    ensures LoadPage(c.(active := d), current, v) == LoadPage(c, current, v)
  {
    var e := c.(active := d);
    forall i | 0 <= i < |d.items| ensures d.items[i] == c.active.items[i] {
      assert ViewItem(d.items[i], Slotless) == ViewItem(c.active.items[i], Slotless);
    }
    assert d.items == c.active.items;
    var (sentinel, k) := Start(c, current, v);
    assert Start(e, current, v) == (sentinel, k);
    var (ds, b) := Walk(c.stored, k);
    RootSlots.LoadIs(c, current, v);
    RootSlots.LoadIs(e, current, v);
    if RootSlots.BasePage(c, b).Found? {
      RootSlots.SameLogsReplay(RootSlots.BasePage(c, b).p, ds + sentinel + [c.active], ds + sentinel + [d], v);
    }
  }

  lemma ActivesRefill(L: nat, s: State, actives: Actives, pid: Path)
    requires ActivesOK(L, s, actives, Slotless) && RefilledAt(s, pid, s.put, Slotless)
    ensures RefilledAt(WithActives(s, actives), pid, s.put, Slotless)
  {
    var s1, c := WithActives(s, actives), ChainOf(s, pid);
    ChainOfActives(s, actives, pid);
    if pid in actives { ActiveLoads(c, actives[pid], s.current, c.cur); }
    forall p | Touches(s.put, pid) && CanOpen(s1, pid, p) ensures Refilled(p, pid, s.put) {
      assert CanOpen(s, pid, p);
    }
  }

  lemma ReadyWithActives(L: nat, s: State, h: seq<Commit>, w: nat, plan: seq<Work>, evict: seq<set<CacheKey>>,
                         actives: Actives, loss: FileLoss)
    requires CommitReady(L, s, h, w, plan, evict, loss) && ActivesOK(L, s, actives, loss)
    ensures CommitReady(L, WithActives(s, actives), h, w, plan, evict, loss)
  {
    assert CommitPossible(L, s, h, w, plan, evict, loss);
    if loss.Slotless? {
      forall pid | PageId(L, pid) ensures RefilledAt(WithActives(s, actives), pid, s.put, loss) {
        ActivesRefill(L, s, actives, pid);
      }
    }
    assert CommitPossible(L, WithActives(s, actives), h, w, plan, evict, loss);
  }

  lemma CommitFitting(H: Hash, L: nat, s: State, h: seq<Commit>, w: nat, plan: seq<Work>, evict: seq<set<CacheKey>>,
                      loss: FileLoss)
    requires Fitting(H, L, s, h, loss) && CommitReady(L, s, h, w, plan, evict, loss)
    ensures |evict| == |plan|
    ensures Fitting(H, L, CalcRootHash(H, L, s, w, plan, evict), h + [Commit(w, s.put)], loss)
  {
    assert FitsAll(H, L, s, h, loss) && CommitPossible(L, s, h, w, plan, evict, loss);
    var op := DoCommit(w, plan, evict);
    WideZero(loss);
    TrieRuns.ApplyKeeps(H, L, s, h, op, loss);
    ApplySized(H, L, s, h, op, loss);
    var moves := CommitMoves(H, L, s, h, op, loss);
    CommitsFit(H, L, s, h, op, Carried(loss), loss);
    assert FitsAll(H, L, CalcRootHash(H, L, s, w, plan, evict), h + [Commit(w, s.put)], loss);
  }

  lemma PlannedPid(L: nat, batch: map<Path, Bytes>, plan: seq<Work>, x: nat)
    requires IsPlan(L, batch, plan) && x < |plan|
    ensures PageId(L, plan[x].pid) && |plan[x].pid| <= L
  {
    HasWork(L, batch, plan, x);
  }

  /** What the iteration at x stores can be stored. */
  lemma HeadStorable(H: Hash, L: nat, s: State, h: seq<Commit>, w: nat, plan: seq<Work>, evict: seq<set<CacheKey>>,
                     actives: Actives, x: nat, loss: FileLoss)
    requires Fitting(H, L, s, h, loss) && CommitReady(L, s, h, w, plan, evict, loss) && ActivesOK(L, s, actives, loss)
    requires |evict| == |plan| && x < |plan|
    ensures Storable(plan[x].pid,
                     ChainOf(CommitAll(H, L, WithActives(s, actives), w, plan[..x + 1], evict[..x + 1]),
                         plan[x].pid).active)
  {
    var s1 := WithActives(s, actives);
    ReadyIs(L, s, h, w, plan, evict, loss);
    ReadyWithActives(L, s, h, w, plan, evict, actives, loss);
    ActivesFitting(H, L, s, h, actives, loss);
    CommitFitting(H, L, s1, h, w, plan, evict, loss);
    ChainSettled(H, L, s1, s.put, w, plan, evict, x);
    PlannedPid(L, s.put, plan, x);
    ActiveStorable(H, L, CalcRootHash(H, L, s1, w, plan, evict), h + [Commit(w, s1.put)], plan[x].pid, loss);
  }

  /* ---- The loop ---- */

  /** After the first iterations of a plan: which page the pool was last given. */
  ghost predicate LastAt(s0: State, s: State, last0: map<Bytes, DeltaPage>, last: map<Bytes, DeltaPage>,
                         plan: seq<Work>, pid: Path) {
    P.LastOf(last, HexString(pid)) ==
    if pid in PidsOf(plan) then ChainOf(s, pid).active else P.LastOf(last0, HexString(pid))
  }

  ghost predicate LastIs(L: nat, s0: State, s: State, last0: map<Bytes, DeltaPage>, last: map<Bytes, DeltaPage>,
                         plan: seq<Work>) {
    forall pid :: PageId(L, pid) ==> LastAt(s0, s, last0, last, plan, pid)
  }

  /** The loop at x: the state is that of the commit after a reload of the pages handed out
      so far, and the pool is right about every page id. */
  ghost predicate Stage(H: Hash, L: nat, s0: State, last0: map<Bytes, DeltaPage>, w: nat, plan: seq<Work>,
                        evict: seq<set<CacheKey>>, x: nat, s: State, q: P.Pool, actives: Actives, last: map<Bytes,
                            DeltaPage>, loss: FileLoss)
    requires |evict| == |plan| && x <= |plan|
  {
    && s == CommitAll(H, L, WithActives(s0, actives), w, plan[..x], evict[..x])
    && actives.Keys == PidsOf(plan[..x]) && ActivesOK(L, s0, actives, loss)
    && PoolOK(q, last) && LastIs(L, s0, s, last0, last, plan[..x])
  }

  lemma PidsSnoc(plan: seq<Work>, x: nat)
    requires x < |plan|
    ensures PidsOf(plan[..x + 1]) == PidsOf(plan[..x]) + {plan[x].pid}
  {
    forall pid | pid in PidsOf(plan[..x]) ensures pid in PidsOf(plan[..x + 1]) {
      var y :| 0 <= y < x && plan[..x][y].pid == pid;
      assert plan[..x + 1][y].pid == pid;
    }
    assert plan[..x + 1][x].pid == plan[x].pid;
    forall pid | pid in PidsOf(plan[..x + 1]) ensures pid in PidsOf(plan[..x]) + {plan[x].pid} {
      var y :| 0 <= y < x + 1 && plan[..x + 1][y].pid == pid;
      if y < x { assert plan[..x][y].pid == pid; }
    }
  }

  lemma NewPid(L: nat, batch: map<Path, Bytes>, plan: seq<Work>, x: nat, d: DeltaPage)
    requires IsPlan(L, batch, plan) && x < |plan|
    ensures plan[x].pid !in PidsOf(plan[..x])
    ensures forall y :: 0 <= y < x ==> Later(map[plan[x].pid := d], plan[..x][y].pid)
  {
    forall y | 0 <= y < x ensures Later(map[plan[x].pid := d], plan[..x][y].pid) && plan[..x][y].pid != plan[x].pid {
      assert plan[..x][y] == plan[y];
    }
  }

  /** One more page handed out is one more page reloaded before the commit. */
  lemma StateNext(H: Hash, L: nat, s0: State, w: nat, plan: seq<Work>, evict: seq<set<CacheKey>>, x: nat, s: State,
                  actives: Actives, d: DeltaPage)
    requires |evict| == |plan| && x < |plan| && IsPlan(L, s0.put, plan)
    requires s == CommitAll(H, L, WithActives(s0, actives), w, plan[..x], evict[..x]) && plan[x].pid !in actives
    ensures var s1 := WithActives(s, map[plan[x].pid := d]);
            CommitAll(H, L, WithActives(s0, actives[plan[x].pid := d]), w, plan[..x + 1], evict[..x + 1]) ==
            CommitOne(H, L, Evict(s1, evict[x], w), w, plan[x].pid, plan[x].nibs)
  {
    var one := map[plan[x].pid := d];
    NewPid(L, s0.put, plan, x, d);
    OneMoreActive(s0, actives, plan[x].pid, d);
    PlanCommutes(H, L, WithActives(s0, actives), one, w, plan[..x], evict[..x]);
    CommitAllSnoc(H, L, WithActives(s0, actives[plan[x].pid := d]), w, plan, evict, x);
  }

  lemma HandedCopies(L: nat, s0: State, s: State, last0: map<Bytes, DeltaPage>, last: map<Bytes, DeltaPage>,
                     plan: seq<Work>, pid: Path, d: DeltaPage, loss: FileLoss)
    requires Mirrors(L, s0, last0, loss) && LastIs(L, s0, s, last0, last, plan) && PageId(L, pid) &&
             pid !in PidsOf(plan)
    requires FromPool(d, P.LastOf(last, HexString(pid)))
    ensures CopiesActive(d, ChainOf(s0, pid).active, loss)
  {
    assert LastAt(s0, s, last0, last, plan, pid) && MirrorAt(s0, last0, pid, loss);
    SettledAlike(d, ChainOf(s0, pid).active, P.LastOf(last0, HexString(pid)), loss);
  }

  lemma LastNext(H: Hash, L: nat, s0: State, s: State, s': State, last0: map<Bytes, DeltaPage>,
                 last: map<Bytes, DeltaPage>,
                 plan: seq<Work>, x: nat, d: DeltaPage, keys: set<CacheKey>, w: nat)
    requires x < |plan| && LastIs(L, s0, s, last0, last, plan[..x])
    requires s' == CommitOne(H, L, Evict(WithActives(s, map[plan[x].pid := d]), keys, w), w, plan[x].pid, plan[x].nibs)
    ensures LastIs(L, s0, s', last0, last[HexString(plan[x].pid) := ChainOf(s', plan[x].pid).active], plan[..x + 1])
  {
    var one := map[plan[x].pid := d];
    var last' := last[HexString(plan[x].pid) := ChainOf(s', plan[x].pid).active];
    PidsSnoc(plan, x);
    forall pid | PageId(L, pid) ensures LastAt(s0, s', last0, last', plan[..x + 1], pid) {
      assert LastAt(s0, s, last0, last, plan[..x], pid);
      if pid != plan[x].pid {
        if HexString(pid) == HexString(plan[x].pid) { HexStringInjective(pid, plan[x].pid); }
        OthersKept(H, L, WithActives(s, one), w, plan[x], keys, pid);
        ChainOfActives(s, one, pid);
      }
    }
  }

  lemma OneMoreOK(L: nat, s: State, actives: Actives, pid: Path, d: DeltaPage, loss: FileLoss)
    requires ActivesOK(L, s, actives, loss) && PageId(L, pid) && CopiesActive(d, ChainOf(s, pid).active, loss)
    ensures ActivesOK(L, s, actives[pid := d], loss)
  {
  }

  lemma ActivesNext(L: nat, s: State, plan: seq<Work>, x: nat, actives: Actives, d: DeltaPage, loss: FileLoss)
    requires x < |plan| && ActivesOK(L, s, actives, loss) && actives.Keys == PidsOf(plan[..x])
    requires PageId(L, plan[x].pid) && CopiesActive(d, ChainOf(s, plan[x].pid).active, loss) &&
             plan[x].pid !in PidsOf(plan[..x])
    ensures plan[x].pid !in actives && ActivesOK(L, s, actives[plan[x].pid := d], loss)
    ensures (actives[plan[x].pid := d]).Keys == PidsOf(plan[..x + 1])
  {
    OneMoreOK(L, s, actives, plan[x].pid, d, loss);
    PidsSnoc(plan, x);
    assert (actives[plan[x].pid := d]).Keys == actives.Keys + {plan[x].pid};
  }

  lemma HandOut(L: nat, s0: State, last0: map<Bytes, DeltaPage>, plan: seq<Work>, hint: Bytes, x: nat, s: State,
                q: P.Pool, last: map<Bytes, DeltaPage>, loss: FileLoss)
    returns (d: DeltaPage, q1: P.Pool)
    requires IsPlan(L, s0.put, plan) && Mirrors(L, s0, last0, loss) && x < |plan|
    requires PoolOK(q, last) && LastIs(L, s0, s, last0, last, plan[..x])
    ensures (d, q1) == Handed(q, plan[x].pid, hint) && PoolOK(q1, last)
    ensures PageId(L, plan[x].pid) && CopiesActive(d, ChainOf(s0, plan[x].pid).active, loss)
    ensures plan[x].pid !in PidsOf(plan[..x])
  {
    var pid := plan[x].pid;
    var r := Handed(q, pid, hint);
    d, q1 := r.0, r.1;
    PlannedPid(L, s0.put, plan, x);
    NewPid(L, s0.put, plan, x, d);
    HandedKeeps(q, last, pid, hint);
    HandedCopies(L, s0, s, last0, last, plan[..x], pid, d, loss);
  }

  lemma StageNext(H: Hash, L: nat, s0: State, h: seq<Commit>, last0: map<Bytes, DeltaPage>, w: nat, plan: seq<Work>,
                  evict: seq<set<CacheKey>>, hints: seq<Bytes>, x: nat, s: State, q: P.Pool, actives: Actives,
                  last: map<Bytes, DeltaPage>, loss: FileLoss)
    returns (actives': Actives, last': map<Bytes, DeltaPage>)
    requires Fitting(H, L, s0, h, loss) && CommitReady(L, s0, h, w, plan, evict, loss) && Mirrors(L, s0, last0, loss)
    requires |hints| == |plan| == |evict| && x < |plan|
    requires Stage(H, L, s0, last0, w, plan, evict, x, s, q, actives, last, loss)
    ensures var (s', q') := PoolOne(H, L, s, q, w, plan[x], evict[x], hints[x]);
            Stage(H, L, s0, last0, w, plan, evict, x + 1, s', q', actives', last', loss)
  {
    ReadyIs(L, s0, h, w, plan, evict, loss);
    var pid := plan[x].pid;
    var d, q1 := HandOut(L, s0, last0, plan, hints[x], x, s, q, last, loss);
    ActivesNext(L, s0, plan, x, actives, d, loss);
    var s' := CommitOne(H, L, Evict(WithActives(s, map[pid := d]), evict[x], w), w, pid, plan[x].nibs);
    actives', last' := actives[pid := d], last[HexString(pid) := ChainOf(s', pid).active];
    StateNext(H, L, s0, w, plan, evict, x, s, actives, d);
    HeadStorable(H, L, s0, h, w, plan, evict, actives', x, loss);
    StoredKeeps(q1, last, pid, hints[x], ChainOf(s', pid).active);
    LastNext(H, L, s0, s, s', last0, last, plan, x, d, evict[x], w);
  }

  lemma {:induction false} StageEnd(H: Hash, L: nat, s0: State, h: seq<Commit>, last0: map<Bytes, DeltaPage>, w: nat,
                                    plan: seq<Work>,
                                    evict: seq<set<CacheKey>>, hints: seq<Bytes>, x: nat, s: State, q: P.Pool,
                                        actives: Actives,
                                    last: map<Bytes, DeltaPage>, loss: FileLoss)
    returns (actives': Actives, last': map<Bytes, DeltaPage>)
    requires Fitting(H, L, s0, h, loss) && CommitReady(L, s0, h, w, plan, evict, loss) && Mirrors(L, s0, last0, loss)
    requires |hints| == |plan| == |evict| && x <= |plan|
    requires Stage(H, L, s0, last0, w, plan, evict, x, s, q, actives, last, loss)
    ensures var (s', q') := PoolCommit(H, L, s, q, w, plan[x..], evict[x..], hints[x..]);
            Stage(H, L, s0, last0, w, plan, evict, |plan|, s', q', actives', last', loss)
    decreases |plan| - x
  {
    if x == |plan| {
      actives', last' := actives, last;
    } else {
      var more, next := StageNext(H, L, s0, h, last0, w, plan, evict, hints, x, s, q, actives, last, loss);
      var (s1, q1) := PoolOne(H, L, s, q, w, plan[x], evict[x], hints[x]);
      assert plan[x..][1..] == plan[x + 1..] && evict[x..][1..] == evict[x + 1..] && hints[x..][1..] == hints[x + 1..];
      actives', last' := StageEnd(H, L, s0, h, last0, w, plan, evict, hints, x + 1, s1, q1, more, next, loss);
    }
  }

  /** A commit on a pool that mirrors the trie is a commit after a reload of faithful copies
      of active delta pages, and leaves a pool that mirrors the trie. */
  lemma PoolCommitIs(H: Hash, L: nat, s: State, h: seq<Commit>, q: P.Pool, last: map<Bytes, DeltaPage>, w: nat,
                     plan: seq<Work>, evict: seq<set<CacheKey>>, hints: seq<Bytes>, loss: FileLoss)
    returns (actives: Actives, last': map<Bytes, DeltaPage>)
    requires Fitting(H, L, s, h, loss) && CommitReady(L, s, h, w, plan, evict, loss) && Mirrors(L, s, last, loss) &&
             PoolOK(q, last)
    requires |hints| == |plan| == |evict|
    ensures var (s', q') := PoolCommit(H, L, s, q, w, plan, evict, hints);
            ActivesOK(L, s, actives, loss) && s' == CommitAll(H, L, WithActives(s, actives), w, plan, evict) &&
            PoolOK(q', last') && Mirrors(L, s'.(put := map[]), last', loss) &&
            Fitting(H, L, s'.(put := map[]), h + [Commit(w, s.put)], loss)
  {
    assert plan[0..] == plan && evict[0..] == evict && hints[0..] == hints;
    actives, last' := StageEnd(H, L, s, h, last, w, plan, evict, hints, 0, s, q, map[], last, loss);
    var r := PoolCommit(H, L, s, q, w, plan, evict, hints);
    StageDone(H, L, s, last, w, plan, evict, r.0, r.1, actives, last', loss);
    AfterActives(H, L, s, h, w, plan, evict, actives, loss);
    MirrorsAgain(H, L, s, h + [Commit(w, s.put)], last, last', w, plan, evict, actives, loss);
  }

  lemma StageDone(H: Hash, L: nat, s0: State, last0: map<Bytes, DeltaPage>, w: nat, plan: seq<Work>,
                  evict: seq<set<CacheKey>>, s: State, q: P.Pool, actives: Actives, last: map<Bytes, DeltaPage>,
                  loss: FileLoss)
    requires |evict| == |plan|
    requires Stage(H, L, s0, last0, w, plan, evict, |plan|, s, q, actives, last, loss)
    ensures s == CommitAll(H, L, WithActives(s0, actives), w, plan, evict) && actives.Keys == PidsOf(plan)
    ensures ActivesOK(L, s0, actives, loss) && PoolOK(q, last) && LastIs(L, s0, s, last0, last, plan)
  {
    assert plan[..|plan|] == plan && evict[..|plan|] == evict;
  }

  lemma AfterActives(H: Hash, L: nat, s: State, h: seq<Commit>, w: nat, plan: seq<Work>, evict: seq<set<CacheKey>>,
                     actives: Actives, loss: FileLoss)
    requires Fitting(H, L, s, h, loss) && CommitReady(L, s, h, w, plan, evict, loss) && ActivesOK(L, s, actives, loss)
    ensures |evict| == |plan|
    ensures Fitting(H, L, CalcRootHash(H, L, WithActives(s, actives), w, plan, evict), h + [Commit(w, s.put)], loss)
  {
    ReadyWithActives(L, s, h, w, plan, evict, actives, loss);
    ActivesFitting(H, L, s, h, actives, loss);
    CommitFitting(H, L, WithActives(s, actives), h, w, plan, evict, loss);
  }

  lemma MirrorsAgain(H: Hash, L: nat, s: State, h: seq<Commit>, last: map<Bytes, DeltaPage>,
                     last': map<Bytes, DeltaPage>,
                     w: nat, plan: seq<Work>, evict: seq<set<CacheKey>>, actives: Actives, loss: FileLoss)
    requires |evict| == |plan| && Mirrors(L, s, last, loss) && actives.Keys == PidsOf(plan)
    requires LastIs(L, s, CommitAll(H, L, WithActives(s, actives), w, plan, evict), last, last', plan)
    requires Fitting(H, L, CalcRootHash(H, L, WithActives(s, actives), w, plan, evict), h, loss)
    ensures Mirrors(L, CalcRootHash(H, L, WithActives(s, actives), w, plan, evict), last', loss)
  {
    var s1 := WithActives(s, actives);
    var s', s2 := CalcRootHash(H, L, s1, w, plan, evict), CommitAll(H, L, s1, w, plan, evict);
    forall pid | PageId(L, pid) ensures MirrorAt(s', last', pid, loss) {
      assert LastAt(s, s2, last, last', plan, pid) && MirrorAt(s, last, pid, loss);
      if pid in PidsOf(plan) {
        FittingChain(H, L, s', h, pid, loss);
      } else {
        forall x | 0 <= x < |plan| ensures plan[x].pid != pid { assert plan[x].pid in PidsOf(plan); }
        PlanKeepsOthers(H, L, s1, w, plan, evict, pid);
        ChainOfActives(s, actives, pid);
      }
    }
  }
}
