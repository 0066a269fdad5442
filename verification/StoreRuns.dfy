/** The whole store: the trie over the page table and the pool of active delta pages. Every
    page is read through the table, its files and their bytes, or through the pool and its
    file, at any time and within commits; flushes happen anywhere. Every run of the store
    is a run of the trie with reloads, and so all that holds of those holds of it. */
module StoreRuns {
  import opened Types
  import opened Pages
  import opened Chains
  import opened Copies
  import opened Loads
  import opened Fields
  import opened FileCodec
  import opened Sizes
  import opened ReadBacks
  import opened ValueLog
  import opened History
  import opened PageSpecs
  import opened TrieState
  import opened TrieInvariant
  import opened TrieRuns
  import opened TrieReads
  import opened TrieTheorems
  import opened TrieCounters
  import opened TrieGrowth
  import opened TrieSizes
  import opened TriePool
  import opened PoolCommits
  import opened Storage
  import T = PageTable
  import P = DeltaPool

  datatype Store = Store(s: State, t: Table, q: P.Pool)

  /** Hints say which page a full pool gives up. */
  datatype Op =
    | Local(op: TrieRuns.Op)
    | Read(version: nat, pid: Path, hint: Bytes)
    | Commit(version: nat, plan: seq<Work>, evict: seq<set<CacheKey>>, hints: seq<Bytes>)
    | FlushTable

  function NewStore(size: nat): Store { Store(NEW_TRIE, T.Table([], []), P.NewPool(size)) }

  /** GetPage with its LoadPage, and CalcRootHash, on what table and pool hand out. */
  ghost function Perform(H: Hash, L: nat, x: Store, op: Op): Store {
    match op
    case Local(o) => x.(s := TrieRuns.Apply(H, L, x.s, o))
    case Read(v, pid, hint) =>
      var (d, q) := Handed(x.q, pid, hint);
      x.(s := GetPage(WithActives(LookedUp(x.s, x.t), map[pid := d]), v, pid).1, q := q)
    case Commit(w, plan, evict, hints) =>
      if x.s.put == map[] || !(|evict| == |plan| == |hints|) then x
      else
        var s1 := LookedUp(x.s, x.t);
        var (s2, q) := PoolCommit(H, L, s1, x.q, w, plan, evict, hints);
        Store(s2.(put := map[]), T.StoreAll(x.t, NewPages(L, s1, s2)), q)
    case FlushTable => x.(t := T.Flush(x.t))
  }

  /** Keys have length L, committed versions increase, and versions and log places fit their
      fields. If hashes are to survive, no key is deleted, and on the pages as the table gives
      them each commit reaches the children whose slots were lost. */
  ghost predicate Possible(L: nat, x: Store, h: seq<History.Commit>, op: Op, loss: FileLoss) {
    match op
    case Local(o) => (o.DoPut? || (o.DoDelete? && loss.Hashless?) || o.DoEvict?) && Enabled(L, x.s, h, o, loss)
    case Read(_, pid, _) => PageId(L, pid)
    case Commit(w, plan, evict, hints) =>
      |evict| == |plan| == |hints| && (x.s.put != map[] ==> CommitReady(L, LookedUp(x.s, x.t), h, w, plan, evict, loss))
    case FlushTable => true
  }

  function Noted(h: seq<History.Commit>, x: Store, op: Op): seq<History.Commit> {
    if op.Commit? && x.s.put != map[] then h + [History.Commit(op.version, x.s.put)] else h
  }

  ghost function StoreAfter(H: Hash, L: nat, size: nat, ops: seq<Op>): Store {
    if ops == [] then NewStore(size) else Perform(H, L, StoreAfter(H, L, size, ops[..|ops| - 1]), ops[|ops| - 1])
  }

  ghost function NotedAfter(H: Hash, L: nat, size: nat, ops: seq<Op>): seq<History.Commit> {
    if ops == [] then []
    else var before := ops[..|ops| - 1];
        Noted(NotedAfter(H, L, size, before), StoreAfter(H, L, size, before), ops[|ops| - 1])
  }

  ghost predicate IsStoreRun(H: Hash, L: nat, size: nat, ops: seq<Op>, loss: FileLoss) {
    size > 0 && L <= 64 && (loss.Slotless? ==> WideHash(H)) &&
    (ops == [] ||
     var before := ops[..|ops| - 1];
     IsStoreRun(H, L, size, before, loss) &&
     Possible(L, StoreAfter(H, L, size, before), NotedAfter(H, L, size, before), ops[|ops| - 1], loss))
  }

  /* ---- The invariant ---- */

  /** What was ever written is what the table holds and the trie sees, and the pool mirrors
      the active delta pages. */
  ghost predicate StoreIs(L: nat, x: Store, o: Written, last: map<Bytes, DeltaPage>, loss: FileLoss) {
    HoldsAll(L, o, x.t) && Derived(L, x.s, o, loss) && PoolOK(x.q, last) && Mirrors(L, x.s, last, loss)
  }

  lemma SameChainsDerived(L: nat, s: State, s': State, o: Written, last: map<Bytes, DeltaPage>, loss: FileLoss)
    requires Derived(L, s, o, loss) && Mirrors(L, s, last, loss) && s'.chains == s.chains
    ensures Derived(L, s', o, loss) && Mirrors(L, s', last, loss)
  {
    forall pid | PageId(L, pid) ensures DerivedAt(L, ChainOf(s', pid), o, pid, loss) && MirrorAt(s', last, pid, loss) {
      assert DerivedAt(L, ChainOf(s, pid), o, pid, loss) && MirrorAt(s, last, pid, loss);
    }
  }

  /* ---- Looking everything up ---- */

  lemma FittingLinked(H: Hash, L: nat, s: State, h: seq<History.Commit>, pid: Path, loss: FileLoss)
    requires Fitting(H, L, s, h, loss) && PageId(L, pid)
    ensures Linked(ChainOf(s, pid).stored) && FitChain(HexString(pid), ChainOf(s, pid), Carried(loss))
  {
    FittingChain(H, L, s, h, pid, loss);
  }

  lemma ViewIs(H: Hash, L: nat, s: State, h: seq<History.Commit>, o: Written, t: Table, last: map<Bytes, DeltaPage>,
               loss: FileLoss)
    requires Fitting(H, L, s, h, loss) && HoldsAll(L, o, t) && Derived(L, s, o, loss) && Mirrors(L, s, last, loss) &&
             L <= 610
    ensures Enabled(L, s, h, DoReload(ViewChains(s, t)), loss) && Fitting(H, L, LookedUp(s, t), h, loss)
    ensures Derived(L, LookedUp(s, t), o, loss) && Mirrors(L, LookedUp(s, t), last, loss)
  {
    forall pid | PageId(L, pid)
      ensures var d := Seen(t, pid, ChainOf(s, pid));
              ChainCopy(ChainOf(s, pid), d, loss) && DerivedAt(L, d, o, pid, loss) &&
                  FitChain(HexString(pid), d, Carried(loss))
    {
      FittingLinked(H, L, s, h, pid, loss);
      assert DerivedAt(L, ChainOf(s, pid), o, pid, loss);
      SeenIs(L, o, t, ChainOf(s, pid), pid, loss);
    }
    ReloadFitting(H, L, s, h, ViewChains(s, t), loss);
    ViewMirrors(L, s, o, t, last, loss);
  }

  ghost predicate SeenWell(L: nat, s: State, t: Table, loss: FileLoss) {
    forall pid :: PageId(L, pid) ==>
      ChainCopy(ChainOf(s, pid), Seen(t, pid, ChainOf(s, pid)), loss) &&
      FitChain(HexString(pid), Seen(t, pid, ChainOf(s, pid)), Carried(loss))
  }

  lemma ViewMirrors(L: nat, s: State, o: Written, t: Table, last: map<Bytes, DeltaPage>, loss: FileLoss)
    requires Mirrors(L, s, last, loss) && forall pid :: PageId(L, pid) ==>
             DerivedAt(L, Seen(t, pid, ChainOf(s, pid)), o, pid, loss)
    ensures Derived(L, LookedUp(s, t), o, loss) && Mirrors(L, LookedUp(s, t), last, loss)
  {
    forall pid | PageId(L, pid)
        ensures DerivedAt(L, ChainOf(LookedUp(s, t), pid), o, pid, loss) && MirrorAt(LookedUp(s, t), last, pid, loss) {
      assert MirrorAt(s, last, pid, loss);
    }
  }

  /* ---- Taking one page from the pool ---- */

  lemma OneActive(H: Hash, L: nat, s: State, h: seq<History.Commit>, o: Written, last: map<Bytes, DeltaPage>,
                  pid: Path, d: DeltaPage, loss: FileLoss)
    requires Fitting(H, L, s, h, loss) && Derived(L, s, o, loss) && Mirrors(L, s, last, loss) && PageId(L, pid)
    requires FromPool(d, P.LastOf(last, HexString(pid)))
    ensures var one := map[pid := d];
            ActivesOK(L, s, one, loss) && Fitting(H, L, WithActives(s, one), h, loss) &&
            Derived(L, WithActives(s, one), o, loss) && Mirrors(L, WithActives(s, one), last, loss)
  {
    var one := map[pid := d];
    assert MirrorAt(s, last, pid, loss);
    SettledAlike(d, ChainOf(s, pid).active, P.LastOf(last, HexString(pid)), loss);
    ActivesFitting(H, L, s, h, one, loss);
    forall p | PageId(L, p) ensures DerivedAt(L, ChainOf(WithActives(s, one), p), o, p, loss) &&
        MirrorAt(WithActives(s, one), last, p, loss) {
      ChainOfActives(s, one, p);
      assert DerivedAt(L, ChainOf(s, p), o, p, loss) && MirrorAt(s, last, p, loss);
    }
  }

  /* ---- Steps that are runs of the trie ---- */

  /** What table and pool hand out, as reloads of the trie. */
  function Reloads(x: Store, actives: Actives): seq<TrieRuns.Op> {
    [DoReload(ViewChains(x.s, x.t)), DoReload(ActiveChains(LookedUp(x.s, x.t), actives))]
  }

  /** The trie's run reaches the store's state and history. */
  ghost predicate Reaches(H: Hash, L: nat, trie: seq<TrieRuns.Op>, s: State, h: seq<History.Commit>, loss: FileLoss) {
    IsRun(H, L, trie, loss) && StateAfter(H, L, trie) == s && HistoryAfter(H, L, trie) == h
  }

  lemma ReachMore(H: Hash, L: nat, trie: seq<TrieRuns.Op>, s: State, h: seq<History.Commit>, op: TrieRuns.Op,
                  loss: FileLoss)
    requires Reaches(H, L, trie, s, h, loss) && Enabled(L, s, h, op, loss)
    ensures Reaches(H, L, trie + [op], TrieRuns.Apply(H, L, s, op), Recorded(h, s, op), loss)
  {
  }

  lemma ReloadsReach(H: Hash, L: nat, trie: seq<TrieRuns.Op>, x: Store, h: seq<History.Commit>, actives: Actives,
                     loss: FileLoss)
    requires Reaches(H, L, trie, x.s, h, loss)
    requires Enabled(L, x.s, h, DoReload(ViewChains(x.s, x.t)), loss) && ActivesOK(L, LookedUp(x.s, x.t), actives, loss)
    ensures Reaches(H, L, trie + Reloads(x, actives), WithActives(LookedUp(x.s, x.t), actives), h, loss)
  {
    var v, a := DoReload(ViewChains(x.s, x.t)), DoReload(ActiveChains(LookedUp(x.s, x.t), actives));
    ReachMore(H, L, trie, x.s, h, v, loss);
    ActivesEnabled(L, LookedUp(x.s, x.t), h, actives, loss);
    ReachMore(H, L, trie + [v], LookedUp(x.s, x.t), h, a, loss);
    assert trie + [v] + [a] == trie + Reloads(x, actives);
  }

  /* ---- Each operation ---- */

  lemma LocalKeeps(H: Hash, L: nat, x: Store, h: seq<History.Commit>, op: TrieRuns.Op, o: Written,
                   last: map<Bytes, DeltaPage>, loss: FileLoss)
    requires Fitting(H, L, x.s, h, loss) && StoreIs(L, x, o, last, loss) &&
             Possible(L, x, h, Local(op), loss)
    ensures Fitting(H, L, TrieRuns.Apply(H, L, x.s, op), h, loss) &&
            StoreIs(L, x.(s := TrieRuns.Apply(H, L, x.s, op)), o, last, loss)
  {
    var s' := TrieRuns.Apply(H, L, x.s, op);
    assert FitsAll(H, L, x.s, h, loss);
    WideZero(loss);
    TrieRuns.ApplyKeeps(H, L, x.s, h, op, loss);
    ApplySized(H, L, x.s, h, op, loss);
    OthersFit(H, L, x.s, op, Carried(loss));
    assert FitsAll(H, L, s', h, loss);
    OthersSameChains(H, L, x.s, op);
    SameChainsDerived(L, x.s, s', o, last, loss);
  }

  lemma ReadFitting(H: Hash, L: nat, s: State, h: seq<History.Commit>, v: nat, pid: Path, loss: FileLoss)
    requires Fitting(H, L, s, h, loss) && PageId(L, pid)
    ensures Fitting(H, L, GetPage(s, v, pid).1, h, loss)
  {
    assert FitsAll(H, L, s, h, loss);
    WideZero(loss);
    TrieRuns.ApplyKeeps(H, L, s, h, DoRead(v, pid), loss);
    ApplySized(H, L, s, h, DoRead(v, pid), loss);
    ReadFits(L, s, v, pid, Carried(loss));
    assert FitsAll(H, L, GetPage(s, v, pid).1, h, loss);
  }

  lemma ReadKeeps(H: Hash, L: nat, x: Store, h: seq<History.Commit>, v: nat, pid: Path, hint: Bytes, o: Written,
                  last: map<Bytes, DeltaPage>, loss: FileLoss)
    returns (actives: Actives)
    requires Fitting(H, L, x.s, h, loss) && StoreIs(L, x, o, last, loss) && PageId(L, pid) &&
             L <= 610
    ensures var x' := Perform(H, L, x, Read(v, pid, hint));
            Fitting(H, L, x'.s, h, loss) && StoreIs(L, x', o, last, loss) &&
            Enabled(L, x.s, h, DoReload(ViewChains(x.s, x.t)), loss) &&
                ActivesOK(L, LookedUp(x.s, x.t), actives, loss) &&
            x'.s == GetPage(WithActives(LookedUp(x.s, x.t), actives), v, pid).1
  {
    var (d, q) := Handed(x.q, pid, hint);
    actives := map[pid := d];
    ViewIs(H, L, x.s, h, o, x.t, last, loss);
    HandedKeeps(x.q, last, pid, hint);
    OneActive(H, L, LookedUp(x.s, x.t), h, o, last, pid, d, loss);
    var s1 := WithActives(LookedUp(x.s, x.t), actives);
    ReadFitting(H, L, s1, h, v, pid, loss);
    ChainsKept(s1, v, pid);
    SameChainsDerived(L, s1, GetPage(s1, v, pid).1, o, last, loss);
  }

  /** What the commit stored, seen from the state before it. */
  lemma CommitGrowsView(H: Hash, L: nat, s: State, h: seq<History.Commit>, w: nat, plan: seq<Work>,
                        evict: seq<set<CacheKey>>, actives: Actives, loss: FileLoss)
    requires Fitting(H, L, s, h, loss) && CommitReady(L, s, h, w, plan, evict, loss) && ActivesOK(L, s, actives, loss)
    requires |evict| == |plan|
    ensures GrownState(L, s, CommitAll(H, L, WithActives(s, actives), w, plan, evict), w) && OlderThan(L, s, w)
  {
    var s1 := WithActives(s, actives);
    ReadyWithActives(L, s, h, w, plan, evict, actives, loss);
    ActivesFitting(H, L, s, h, actives, loss);
    assert FitsAll(H, L, s1, h, loss) && CommitPossible(L, s1, h, w, plan, evict, loss);
    CommitGrows(H, L, s1, h, DoCommit(w, plan, evict), loss);
    ActivesGrown(L, s, actives, CalcRootHash(H, L, s1, w, plan, evict), w);
    SameGrown(L, s, CalcRootHash(H, L, s1, w, plan, evict), CommitAll(H, L, s1, w, plan, evict), w);
  }

  lemma ActivesGrown(L: nat, s: State, actives: Actives, s': State, w: nat)
    requires GrownState(L, WithActives(s, actives), s', w) && OlderThan(L, WithActives(s, actives), w)
    ensures GrownState(L, s, s', w) && OlderThan(L, s, w)
  {
    forall pid | PageId(L, pid)
      ensures Evolution.Grown(ChainOf(s, pid).stored, ChainOf(s', pid).stored, w)
      ensures forall k :: k in ChainOf(s, pid).stored ==> 0 < k.version < w
    {
      ChainOfActives(s, actives, pid);
      assert ChainOf(WithActives(s, actives), pid).stored == ChainOf(s, pid).stored;
      assert Evolution.Grown(ChainOf(WithActives(s, actives), pid).stored, ChainOf(s', pid).stored, w);
    }
  }

  lemma SameGrown(L: nat, s: State, s1: State, s2: State, w: nat)
    requires GrownState(L, s, s1, w) && s1.chains == s2.chains
    ensures GrownState(L, s, s2, w)
  {
    forall pid | PageId(L, pid) ensures Evolution.Grown(ChainOf(s, pid).stored, ChainOf(s2, pid).stored, w) {
      assert Evolution.Grown(ChainOf(s, pid).stored, ChainOf(s1, pid).stored, w);
    }
  }

  lemma ExtendedDerived(H: Hash, L: nat, o: Written, s: State, s': State, h: seq<History.Commit>, w: nat,
                        loss: FileLoss)
    requires Derived(L, s, o, loss) && GrownState(L, s, s', w) && Fitting(H, L, s', h, loss)
    ensures Derived(L, s', Extended(o, s, s'), loss)
  {
    forall pid | PageId(L, pid) ensures DerivedAt(L, ChainOf(s', pid), Extended(o, s, s'), pid, loss) {
      assert DerivedAt(L, ChainOf(s, pid), o, pid, loss);
      assert Evolution.Grown(ChainOf(s, pid).stored, ChainOf(s', pid).stored, w);
      FittingChain(H, L, s', h, pid, loss);
      ExtendedOneDerived(L, o, s, s', pid, w, loss);
    }
  }

  lemma ExtendedOneDerived(L: nat, o: Written, s: State, s': State, pid: Path, w: nat, loss: FileLoss)
    requires DerivedAt(L, ChainOf(s, pid), o, pid, loss) &&
             Evolution.Grown(ChainOf(s, pid).stored, ChainOf(s', pid).stored, w)
    requires forall k :: k in ChainOf(s', pid).stored ==> GoodPage(L, pid, ChainOf(s', pid).stored[k], loss)
    ensures DerivedAt(L, ChainOf(s', pid), Extended(o, s, s'), pid, loss)
  {
    var c', pages := ChainOf(s', pid), PagesOf(Extended(o, s, s'), pid);
    forall k ensures k in c'.stored <==> k in pages {}
    assert c'.stored.Keys == pages.Keys;
  }

  lemma CommitKeepsStore(H: Hash, L: nat, x: Store, h: seq<History.Commit>, op: Op, o: Written,
                         last: map<Bytes, DeltaPage>, loss: FileLoss)
    returns (actives: Actives, o': Written, last': map<Bytes, DeltaPage>)
    requires Fitting(H, L, x.s, h, loss) && StoreIs(L, x, o, last, loss) && L <= 610
    requires op.Commit? && Possible(L, x, h, op, loss) && x.s.put != map[]
    ensures var x' := Perform(H, L, x, op);
            Fitting(H, L, x'.s, h + [History.Commit(op.version, x.s.put)], loss) && StoreIs(L, x', o', last', loss) &&
            Enabled(L, x.s, h, DoReload(ViewChains(x.s, x.t)), loss) &&
                ActivesOK(L, LookedUp(x.s, x.t), actives, loss) &&
            x'.s == CalcRootHash(H, L, WithActives(LookedUp(x.s, x.t), actives), op.version, op.plan, op.evict)
  {
    var w, plan, evict := op.version, op.plan, op.evict;
    var s1 := LookedUp(x.s, x.t);
    ViewIs(H, L, x.s, h, o, x.t, last, loss);
    actives, last' := PoolCommitIs(H, L, s1, h, x.q, last, w, plan, evict, op.hints, loss);
    CommitGrowsView(H, L, s1, h, w, plan, evict, actives, loss);
    var s2 := PoolCommit(H, L, s1, x.q, w, plan, evict, op.hints).0;
    o' := Extended(o, s1, s2);
    CommitStores(L, o, s1, s2, x.t, w, loss);
    PutAsideGrown(L, s1, s2, w);
    ExtendedDerived(H, L, o, s1, s2.(put := map[]), h + [History.Commit(w, x.s.put)], w, loss);
    SamePut(o, s1, s2);
  }

  lemma PutAsideGrown(L: nat, s: State, s': State, w: nat)
    requires GrownState(L, s, s', w)
    ensures GrownState(L, s, s'.(put := map[]), w)
  {
    SameGrown(L, s, s', s'.(put := map[]), w);
  }

  lemma SamePut(o: Written, s: State, s': State)
    ensures Extended(o, s, s'.(put := map[])) == Extended(o, s, s')
  {
    assert forall pid :: ChainOf(s'.(put := map[]), pid) == ChainOf(s', pid);
  }

  /* ---- Runs ---- */

  lemma NewFitting(H: Hash, L: nat, loss: FileLoss)
    requires loss.Slotless? ==> WideHash(H)
    ensures Fitting(H, L, NEW_TRIE, [], loss)
  {
    NewTrieInv(H, L, loss);
    WideZero(loss);
    NewTrieFits(L, Carried(loss));
    assert Sized(NEW_CHAIN);
    assert FitsAll(H, L, NEW_TRIE, [], loss);
  }

  lemma NewStoreOK(H: Hash, L: nat, size: nat, loss: FileLoss)
    requires size > 0 && (loss.Slotless? ==> WideHash(H))
    ensures Fitting(H, L, NEW_TRIE, [], loss) && StoreIs(L, NewStore(size), map[], map[], loss)
  {
    NewFitting(H, L, loss);
    NewPoolOK(size);
  }

  lemma PerformKeeps(H: Hash, L: nat, x: Store, h: seq<History.Commit>, op: Op, o: Written,
                     last: map<Bytes, DeltaPage>, trie: seq<TrieRuns.Op>, loss: FileLoss)
    returns (o': Written, last': map<Bytes, DeltaPage>, trie': seq<TrieRuns.Op>)
    requires Fitting(H, L, x.s, h, loss) && StoreIs(L, x, o, last, loss) && L <= 610 &&
             Possible(L, x, h, op, loss)
    requires Reaches(H, L, trie, x.s, h, loss)
    ensures var x' := Perform(H, L, x, op);
            Fitting(H, L, x'.s, Noted(h, x, op), loss) && StoreIs(L, x', o', last', loss) &&
                Reaches(H, L, trie', x'.s, Noted(h, x, op), loss)
  {
    o', last', trie' := o, last, trie;
    match op
    case Local(lo) =>
      LocalKeeps(H, L, x, h, lo, o, last, loss);
      ReachMore(H, L, trie, x.s, h, lo, loss);
      trie' := trie + [lo];
    case Read(v, pid, hint) =>
      var actives := ReadKeeps(H, L, x, h, v, pid, hint, o, last, loss);
      ReloadsReach(H, L, trie, x, h, actives, loss);
      ReachMore(H, L, trie + Reloads(x, actives), WithActives(LookedUp(x.s, x.t), actives), h, DoRead(v, pid), loss);
      trie' := trie + Reloads(x, actives) + [DoRead(v, pid)];
    case Commit(w, plan, evict, hints) =>
      if x.s.put != map[] {
        var actives;
        actives, o', last' := CommitKeepsStore(H, L, x, h, op, o, last, loss);
        ReloadsReach(H, L, trie, x, h, actives, loss);
        ReadyWithActives(L, LookedUp(x.s, x.t), h, w, plan, evict, actives, loss);
        trie' := CommitReaches(H, L, trie + Reloads(x, actives), x, h, w, plan, evict, actives, loss);
      }
    case FlushTable => FlushHolds(L, o, x.t);
  }

  lemma CommitReaches(H: Hash, L: nat, trie: seq<TrieRuns.Op>, x: Store, h: seq<History.Commit>, w: nat,
                      plan: seq<Work>,
                      evict: seq<set<CacheKey>>, actives: Actives, loss: FileLoss) returns (trie': seq<TrieRuns.Op>)
    requires |evict| == |plan| && x.s.put != map[]
    requires CommitReady(L, WithActives(LookedUp(x.s, x.t), actives), h, w, plan, evict, loss)
    requires Reaches(H, L, trie, WithActives(LookedUp(x.s, x.t), actives), h, loss)
    ensures Reaches(H, L, trie', CalcRootHash(H, L, WithActives(LookedUp(x.s, x.t), actives), w, plan, evict),
                    h + [History.Commit(w, x.s.put)], loss)
  {
    var s1 := WithActives(LookedUp(x.s, x.t), actives);
    assert CommitPossible(L, s1, h, w, plan, evict, loss);
    ReachMore(H, L, trie, s1, h, DoCommit(w, plan, evict), loss);
    trie' := trie + [DoCommit(w, plan, evict)];
  }

  /** Every run of the store is a run of the trie, with what table and pool hand out as
      reloads; its table holds all that was written, and its pool mirrors the trie. */
  lemma {:induction false} RunIsSound(H: Hash, L: nat, size: nat, ops: seq<Op>, loss: FileLoss)
    returns (o: Written, last: map<Bytes, DeltaPage>, trie: seq<TrieRuns.Op>)
    requires IsStoreRun(H, L, size, ops, loss)
    ensures var x, h := StoreAfter(H, L, size, ops), NotedAfter(H, L, size, ops);
            Fitting(H, L, x.s, h, loss) && StoreIs(L, x, o, last, loss) && Reaches(H, L, trie, x.s, h, loss)
  {
    if ops == [] {
      NewStoreOK(H, L, size, loss);
      o, last, trie := map[], map[], [];
    } else {
      var before := ops[..|ops| - 1];
      o, last, trie := RunIsSound(H, L, size, before, loss);
      o, last, trie := PerformKeeps(H, L, StoreAfter(H, L, size, before), NotedAfter(H, L, size, before),
                                    ops[|ops| - 1], o, last, trie, loss);
    }
  }

  /* ---- What the files hold ---- */

  ghost predicate NumHistory(h: seq<History.Commit>, loss: FileLoss) {
    forall i :: 0 <= i < |h| ==> Num(h[i].version, Carried(loss))
  }

  lemma {:induction false} RunNum(H: Hash, L: nat, size: nat, ops: seq<Op>, loss: FileLoss)
    requires IsStoreRun(H, L, size, ops, loss)
    ensures NumHistory(NotedAfter(H, L, size, ops), loss)
  {
    if ops != [] {
      var before, op := ops[..|ops| - 1], ops[|ops| - 1];
      var x, h := StoreAfter(H, L, size, before), NotedAfter(H, L, size, before);
      RunNum(H, L, size, before, loss);
      if op.Commit? && x.s.put != map[] {
        assert CommitPossible(L, LookedUp(x.s, x.t), h, op.version, op.plan, op.evict, loss);
      }
    }
  }

  lemma {:induction false} TouchNum(h: seq<History.Commit>, pid: Path, loss: FileLoss)
    requires NumHistory(h, loss)
    ensures Num(LastTouch(h, pid), Carried(loss))
    decreases |h|
  {
    WideZero(loss);
    if h != [] && !Touches(h[|h| - 1].batch, pid) { TouchNum(h[..|h| - 1], pid, loss); }
  }

  lemma KeyNum(H: Hash, L: nat, s: State, h: seq<History.Commit>, pid: Path, k: Key, loss: FileLoss)
    requires Fitting(H, L, s, h, loss) && NumHistory(h, loss) && PageId(L, pid) && k in ChainOf(s, pid).stored
    ensures Num(k.version, Carried(loss))
  {
    assert FitsAll(H, L, s, h, loss);
    var g: Snaps :| TrieInv(H, L, s, g, h, loss);
    assert PageInv(H, L, s, g, h, pid, loss);
    TouchNum(h, pid, loss);
  }

  /** Every index file of every run fits its blocks, and index blocks and lookup block read
      back unchanged. */
  lemma FilesAreReadable(H: Hash, L: nat, size: nat, ops: seq<Op>, j: nat, loss: FileLoss)
    requires IsStoreRun(H, L, size, ops, loss) && j < |StoreAfter(H, L, size, ops).t.files|
    ensures var f := StoreAfter(H, L, size, ops).t.files[j];
            (forall i :: 0 <= i < |f.blocks| ==> BlockSurvives(f.blocks[i])) && LookupSurvives(f.lookup)
  {
    var o, last, trie := RunIsSound(H, L, size, ops, loss);
    RunNum(H, L, size, ops, loss);
    FileIsReadable(H, L, StoreAfter(H, L, size, ops), NotedAfter(H, L, size, ops), o, last, j, loss);
  }

  lemma FileIsReadable(H: Hash, L: nat, x: Store, h: seq<History.Commit>, o: Written, last: map<Bytes, DeltaPage>,
                       j: nat, loss: FileLoss)
    requires Fitting(H, L, x.s, h, loss) && StoreIs(L, x, o, last, loss) && NumHistory(h, loss) && L <= 64 &&
             j < |x.t.files|
    ensures var f := x.t.files[j];
            (forall i :: 0 <= i < |f.blocks| ==> BlockSurvives(f.blocks[i])) && LookupSurvives(f.lookup)
  {
    var f := x.t.files[j];
    var entries := T.EntriesOf(f);
    forall i | 0 <= i < |entries| ensures entries[i].key.version < Pow256(8) && |entries[i].key.pid| <= 64 {
      var e := entries[i];
      T.FileEntriesHave(x.t.files, j, e);
      assert e in T.All(x.t) && StoredAt(L, o, e);
      assert DerivedAt(L, ChainOf(x.s, e.key.pid), o, e.key.pid, loss);
      KeyNum(H, L, x.s, h, e.key.pid, KeyOf(e.key), loss);
    }
    assert T.IsFlushed(f);
    FileSurvives(entries);
  }

  /** Every lookup of every run finds a page exactly if the trie has stored one, and finds
      that page, or the page of which the trie has a copy read from its bytes. */
  lemma LookupsAreRight(H: Hash, L: nat, size: nat, ops: seq<Op>, pid: Path, k: Key, loss: FileLoss)
    requires IsStoreRun(H, L, size, ops, loss) && PageId(L, pid) && k.version > 0
    ensures var x := StoreAfter(H, L, size, ops);
            var found, c := T.PageOf(T.PageLookup(x.t, PageKeyOf(pid, k))), ChainOf(x.s, pid);
            (found.Some? <==> k in c.stored) && (found.Some? ==> StoredAs(c.stored[k], found.value))
  {
    var o, last, trie := RunIsSound(H, L, size, ops, loss);
    var x := StoreAfter(H, L, size, ops);
    TableFinds(L, o, x.t, pid, k);
    assert DerivedAt(L, ChainOf(x.s, pid), o, pid, loss);
  }

  /** Reading every page through the table, its files and their bytes, Get is right about
      every version that the store can rebuild. */
  lemma GetThroughFiles(H: Hash, L: nat, size: nat, ops: seq<Op>, v: nat, k: Path, loss: FileLoss)
    requires IsStoreRun(H, L, size, ops, loss) && |k| == L && Committed(NotedAfter(H, L, size, ops), v)
    requires PathRecoverable(StoreAfter(H, L, size, ops).s, NotedAfter(H, L, size, ops), v, k)
    ensures var x, h := StoreAfter(H, L, size, ops), NotedAfter(H, L, size, ops);
            Get(LookedUp(x.s, x.t), v, k).0 == Some(FirstLine(Value(Upto(h, v), k)))
  {
    var o, last, trie := RunIsSound(H, L, size, ops, loss);
    ReadThrough(H, L, StoreAfter(H, L, size, ops), NotedAfter(H, L, size, ops), o, last, v, k, loss);
  }

  lemma ReadThrough(H: Hash, L: nat, x: Store, h: seq<History.Commit>, o: Written, last: map<Bytes, DeltaPage>,
                    v: nat, k: Path, loss: FileLoss)
    requires Fitting(H, L, x.s, h, loss) && StoreIs(L, x, o, last, loss) && L <= 610 && |k| == L && Committed(h, v)
    requires PathRecoverable(x.s, h, v, k)
    ensures Get(LookedUp(x.s, x.t), v, k).0 == Some(FirstLine(Value(Upto(h, v), k)))
  {
    ViewIs(H, L, x.s, h, o, x.t, last, loss);
    assert FitsAll(H, L, LookedUp(x.s, x.t), h, loss);
    forall i | 0 <= i <= |k| && i % 2 == 0 ensures PageRecoverable(LookedUp(x.s, x.t), h, v, k[..i]) {
      assert PageRecoverable(x.s, h, v, k[..i]);
      ViewRecoverable(L, x.s, h, x.t, k[..i], LastTouch(Upto(h, v), k[..i]), loss);
    }
    GetIsValue(H, L, LookedUp(x.s, x.t), h, v, k, loss);
  }

  lemma ViewRecoverable(L: nat, s: State, h: seq<History.Commit>, t: Table, pid: Path, v: nat, loss: FileLoss)
    requires Enabled(L, s, h, DoReload(ViewChains(s, t)), loss) && PageId(L, pid)
    requires Linked(ChainOf(s, pid).stored) && Recoverable(ChainOf(s, pid), v)
    ensures Linked(ChainOf(LookedUp(s, t), pid).stored) && Recoverable(ChainOf(LookedUp(s, t), pid), v)
  {
    if pid in s.chains {
      var d := ViewChains(s, t)[pid];
      CopyLinked(ChainOf(s, pid), d, loss);
      CopyRecoverable(ChainOf(s, pid), d, v, loss);
    }
  }

  lemma ReadNewest(H: Hash, L: nat, x: Store, h: seq<History.Commit>, o: Written, last: map<Bytes, DeltaPage>,
                   k: Path, loss: FileLoss)
    requires Fitting(H, L, x.s, h, loss) && StoreIs(L, x, o, last, loss) && L <= 610 && |k| == L && h != []
    ensures Get(LookedUp(x.s, x.t), Latest(h), k).0 == Some(FirstLine(Value(h, k)))
  {
    assert FitsAll(H, L, x.s, h, loss);
    NewestRecoverable(H, L, x.s, h, Latest(h), k, loss);
    UptoAll(h, Latest(h));
    ReadThrough(H, L, x, h, o, last, Latest(h), k, loss);
  }

  /** So about the newest version Get is always right. */
  lemma GetNewestThroughFiles(H: Hash, L: nat, size: nat, ops: seq<Op>, k: Path, loss: FileLoss)
    returns (x: Store, h: seq<History.Commit>)
    requires IsStoreRun(H, L, size, ops, loss) && |k| == L && NotedAfter(H, L, size, ops) != []
    ensures x == StoreAfter(H, L, size, ops) && h == NotedAfter(H, L, size, ops) && h != []
    ensures Get(LookedUp(x.s, x.t), Latest(h), k).0 == Some(FirstLine(Value(h, k)))
  {
    var o, last, trie := RunIsSound(H, L, size, ops, loss);
    x, h := StoreAfter(H, L, size, ops), NotedAfter(H, L, size, ops);
    ReadNewest(H, L, x, h, o, last, k, loss);
  }

  /* ---- The root hash ---- */

  lemma HashThrough(H: Hash, L: nat, x: Store, h: seq<History.Commit>, o: Written, last: map<Bytes, DeltaPage>,
                    v: nat, loss: FileLoss)
    requires Fitting(H, L, x.s, h, loss) && StoreIs(L, x, o, last, loss) && L <= 610 && loss.Slotless?
    requires Committed(h, v) && PageRecoverable(x.s, h, v, [])
    ensures GetRootHash(LookedUp(x.s, x.t), v).0 == Some(Merkle(H, Contents(Upto(h, v)), [], L))
  {
    ViewIs(H, L, x.s, h, o, x.t, last, loss);
    assert FitsAll(H, L, LookedUp(x.s, x.t), h, loss);
    ViewRecoverable(L, x.s, h, x.t, [], LastTouch(Upto(h, v), []), loss);
    RootHashIsMerkle(H, L, LookedUp(x.s, x.t), h, v, loss);
  }

  lemma HashNewest(H: Hash, L: nat, x: Store, h: seq<History.Commit>, o: Written, last: map<Bytes, DeltaPage>,
                   loss: FileLoss)
    requires Fitting(H, L, x.s, h, loss) && StoreIs(L, x, o, last, loss) && L <= 610 && loss.Slotless? && h != []
    ensures GetRootHash(LookedUp(x.s, x.t), Latest(h)).0 == Some(Merkle(H, Contents(h), [], L))
  {
    var v, k: Path := Latest(h), seq(L, _ => 0);
    assert FitsAll(H, L, x.s, h, loss);
    NewestRecoverable(H, L, x.s, h, v, k, loss);
    assert PageRecoverable(x.s, h, v, k[..0]) && k[..0] == [];
    UptoAll(h, v);
    HashThrough(H, L, x, h, o, last, v, loss);
  }

  /** In a run without deletions, with a hash function of 32 bytes, in which each commit has a
      key below every child whose slot the page it opens has lost in a file, the newest root
      hash, read through table, files and bytes, is the Merkle hash of all that was written. */
  lemma RootHashThroughFiles(H: Hash, L: nat, size: nat, ops: seq<Op>) returns (x: Store, h: seq<History.Commit>)
    requires IsStoreRun(H, L, size, ops, Slotless) && NotedAfter(H, L, size, ops) != []
    ensures x == StoreAfter(H, L, size, ops) && h == NotedAfter(H, L, size, ops) && h != []
    ensures GetRootHash(LookedUp(x.s, x.t), Latest(h)).0 == Some(Merkle(H, Contents(h), [], L))
  {
    var o, last, trie := RunIsSound(H, L, size, ops, Slotless);
    x, h := StoreAfter(H, L, size, ops), NotedAfter(H, L, size, ops);
    HashNewest(H, L, x, h, o, last, Slotless);
  }

  /** And so is the root hash of every older version whose root page can be rebuilt. */
  lemma OldRootHashThroughFiles(H: Hash, L: nat, size: nat, ops: seq<Op>, v: nat)
    requires IsStoreRun(H, L, size, ops, Slotless) && Committed(NotedAfter(H, L, size, ops), v)
    requires PageRecoverable(StoreAfter(H, L, size, ops).s, NotedAfter(H, L, size, ops), v, [])
    ensures var x, h := StoreAfter(H, L, size, ops), NotedAfter(H, L, size, ops);
            GetRootHash(LookedUp(x.s, x.t), v).0 == Some(Merkle(H, Contents(Upto(h, v)), [], L))
  {
    var o, last, trie := RunIsSound(H, L, size, ops, Slotless);
    HashThrough(H, L, StoreAfter(H, L, size, ops), NotedAfter(H, L, size, ops), o, last, v, Slotless);
  }
}
