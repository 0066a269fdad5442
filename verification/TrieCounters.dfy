/** What the counters of every reachable chain mean, in runs whose reloads keep the base
    counts, and so what LoadPage answers there. Stored pages may be read from files at any
    time; only the pool's file does not carry the counts. */
module TrieCounters {
  import opened Types
  import opened Pages
  import opened Replays
  import opened Chains
  import opened ChainInvariant
  import opened Loads
  import opened Counting
  import opened Copies
  import opened History
  import opened PageSpecs
  import opened TrieState
  import opened TrieInvariant
  import opened TrieRuns
  import opened TrieSteps

  ghost predicate Regular(c: Chain) {
    Linked(c.stored) && Refers(c.stored, c.active.last) && Synced(c)
  }

  ghost predicate RegularState(L: nat, s: State) {
    forall pid :: PageId(L, pid) ==> Regular(ChainOf(s, pid))
  }

  lemma SameChains(L: nat, s: State, s': State)
    requires s'.chains == s.chains && RegularState(L, s)
    ensures RegularState(L, s')
  {
    forall pid | PageId(L, pid) ensures Regular(ChainOf(s', pid)) { assert Regular(ChainOf(s, pid)); }
  }

  lemma OthersSameChains(H: Hash, L: nat, s: State, op: Op)
    requires !op.DoReload? && (op.DoCommit? ==> s.put == map[])
    ensures Apply(H, L, s, op).chains == s.chains
  {
  }

  lemma StepRegular(H: Hash, L: nat, s: State, w: nat, c: Chain, m: Move)
    requires Brought(H, L, s, w, c, m) && Regular(ChainOf(s, m.work.pid))
    ensures Regular(c)
  {
    var pid := m.work.pid;
    assert BroughtTo(H, L, s, w, c, m);
    CommitSynced(H, ChainOf(s, pid), m.p, pid, ChainOf(s, pid).cur, w, m.calls, Kind(L, pid));
  }

  lemma CommitRegular(H: Hash, L: nat, s: State, h: seq<Commit>, op: Op, loss: Loss)
    requires Agrees(H, L, s, h, loss) && Enabled(L, s, h, op, loss) && op.DoCommit? && s.put != map[]
    requires RegularState(L, s)
    ensures RegularState(L, Apply(H, L, s, op))
  {
    var s' := Apply(H, L, s, op);
    var moves := CommitMoves(H, L, s, h, op, loss);
    forall pid | PageId(L, pid) ensures Regular(ChainOf(s', pid)) {
      assert ChainMoved(H, L, s, s', op.version, moves, pid, loss) && Regular(ChainOf(s, pid));
      if pid in moves { StepRegular(H, L, s, op.version, ChainOf(s', pid), moves[pid]); }
    }
  }

  /* ---- Reloads ---- */

  /** A copy with the same base count is as regular as the chain. */
  lemma CopySynced(c: Chain, d: Chain, loss: Loss)
    requires Regular(c) && ChainCopy(c, d, loss) && d.active.bcount == c.active.bcount
    ensures Regular(d)
  {
    CopyLinked(c, d, loss);
    CopyChain(c, d, c.active.last, loss);
    var k := c.active.last;
    SameItemsConcat(ItemsAt(d.stored, k), d.active.items, ItemsAt(c.stored, k), c.active.items, loss);
    SameVersions(FullLog(c), FullLog(d), c.base, loss);
    forall r: nat | Key(r, true) in d.stored ensures SyncedAt(d.stored, r) {
      assert SyncedAt(c.stored, r);
      CopyChain(c, d, Key(r, true), loss);
      SameVersions(ItemsAt(c.stored, Key(r, true)), ItemsAt(d.stored, Key(r, true)),
                   BaseOf(c.stored, Key(r, true)).version, loss);
    }
  }

  ghost predicate SameCounts(L: nat, s: State, chains: map<Path, Chain>) {
    forall pid :: pid in chains && PageId(L, pid) ==> chains[pid].active.bcount == ChainOf(s, pid).active.bcount
  }

  /** Every reload of the run keeps the base counts. */
  ghost predicate KeepsCounts(H: Hash, L: nat, ops: seq<Op>) {
    forall i :: 0 <= i < |ops| && ops[i].DoReload? ==> SameCounts(L, StateAfter(H, L, ops[..i]), ops[i].chains)
  }

  lemma KeepsCountsBefore(H: Hash, L: nat, ops: seq<Op>)
    requires KeepsCounts(H, L, ops) && ops != []
    ensures KeepsCounts(H, L, ops[..|ops| - 1])
  {
    var before := ops[..|ops| - 1];
    forall i | 0 <= i < |before| && before[i].DoReload?
      ensures SameCounts(L, StateAfter(H, L, before[..i]), before[i].chains)
    {
      assert before[..i] == ops[..i] && before[i] == ops[i];
    }
  }

  lemma ReloadRegular(L: nat, s: State, h: seq<Commit>, chains: map<Path, Chain>, loss: Loss)
    requires RegularState(L, s) && Enabled(L, s, h, DoReload(chains), loss) && SameCounts(L, s, chains)
    ensures RegularState(L, s.(chains := chains))
  {
    forall pid | PageId(L, pid) ensures Regular(ChainOf(s.(chains := chains), pid)) {
      assert Regular(ChainOf(s, pid));
      if pid in chains { CopySynced(ChainOf(s, pid), chains[pid], loss); }
    }
  }

  /* ---- Runs ---- */

  lemma ApplyRegular(H: Hash, L: nat, s: State, h: seq<Commit>, op: Op, loss: Loss)
    requires Agrees(H, L, s, h, loss) && Enabled(L, s, h, op, loss)
    requires RegularState(L, s) && (op.DoReload? ==> SameCounts(L, s, op.chains))
    ensures RegularState(L, Apply(H, L, s, op))
  {
    if op.DoCommit? && s.put != map[] {
      CommitRegular(H, L, s, h, op, loss);
    } else if op.DoReload? {
      ReloadRegular(L, s, h, op.chains, loss);
    } else {
      OthersSameChains(H, L, s, op);
      SameChains(L, s, Apply(H, L, s, op));
    }
  }

  /** In every reachable state update_count_ is the number of items, b_update_count_ the
      number of items since the last checkpoint, and so on, for every page id. */
  lemma {:induction false} RunRegular(H: Hash, L: nat, ops: seq<Op>, loss: Loss)
    requires IsRun(H, L, ops, loss) && KeepsCounts(H, L, ops)
    ensures RegularState(L, StateAfter(H, L, ops))
  {
    if ops == [] {
    } else {
      var before := ops[..|ops| - 1];
      KeepsCountsBefore(H, L, ops);
      RunRegular(H, L, before, loss);
      RunAgrees(H, L, before, loss);
      ApplyRegular(H, L, StateAfter(H, L, before), HistoryAfter(H, L, before), ops[|ops| - 1], loss);
    }
  }

  /* ---- What follows for every reachable state ---- */

  /** The counters of the active delta page of any page id, spelled out. */
  lemma RunCounters(H: Hash, L: nat, ops: seq<Op>, pid: Path, loss: Loss)
    requires IsRun(H, L, ops, loss) && KeepsCounts(H, L, ops) && PageId(L, pid)
    ensures var c := ChainOf(StateAfter(H, L, ops), pid);
            Linked(c.stored) && Refers(c.stored, c.active.last) &&
            c.active.count == |c.active.items| < TD && c.active.bcount == |FullLog(c)| < TB &&
            c.active.count == c.active.bcount % TD && Sorted(FullLog(c)) && Increasing(c.frozen)
  {
    RunAgrees(H, L, ops, loss);
    RunRegular(H, L, ops, loss);
    var s, h := StateAfter(H, L, ops), HistoryAfter(H, L, ops);
    var g: Snaps :| TrieInv(H, L, s, g, h, loss);
    assert PageInv(H, L, s, g, h, pid, loss) && Regular(ChainOf(s, pid));
  }

  lemma CurrentBound(h: seq<Commit>, L: nat, pid: Path)
    requires ValidHistory(h, L) && h != []
    ensures LastTouch(h, pid) <= Latest(h)
  {
    TouchIsWritten(h, pid, L);
  }

  /** LoadPage is right about a version of a page of a reachable state if and only if the
      version is recoverable; current_version_ must not lie behind the last commit. */
  lemma RunLoadExactIff(H: Hash, L: nat, ops: seq<Op>, pid: Path, v: nat, loss: Loss)
    returns (snaps: map<nat, Page>)
    requires IsRun(H, L, ops, loss) && KeepsCounts(H, L, ops) && PageId(L, pid)
    requires var h := HistoryAfter(H, L, ops); h != [] && Latest(h) <= StateAfter(H, L, ops).current
    ensures var s, h := StateAfter(H, L, ops), HistoryAfter(H, L, ops);
            (forall u: nat :: u in snaps <==> TouchedAt(h, pid, u)) && Linked(ChainOf(s, pid).stored) &&
            (Exact(LoadPage(ChainOf(s, pid), s.current, v), snaps, v, loss) <==> Recoverable(ChainOf(s, pid), v)) &&
            forall u: nat :: u in snaps ==> PageSpec(H, L, Upto(h, u), s.log, pid, snaps[u], loss)
  {
    RunAgrees(H, L, ops, loss);
    RunRegular(H, L, ops, loss);
    var s, h := StateAfter(H, L, ops), HistoryAfter(H, L, ops);
    var g: Snaps :| TrieInv(H, L, s, g, h, loss);
    assert PageInv(H, L, s, g, h, pid, loss) && Regular(ChainOf(s, pid));
    snaps := SnapsOf(g, pid);
    CurrentBound(h, L, pid);
    LoadExactIff(ChainOf(s, pid), snaps, Kind(L, pid), ChainOf(s, pid).cur, s.current, v, loss);
  }

  /** If every checkpoint of a page has a delta page frozen at the same version, no version
      of the page is lost. */
  lemma RunCovered(H: Hash, L: nat, ops: seq<Op>, pid: Path, v: nat, loss: Loss)
    requires IsRun(H, L, ops, loss) && KeepsCounts(H, L, ops) && PageId(L, pid)
    requires var c := ChainOf(StateAfter(H, L, ops), pid); forall b: nat :: Key(b, false) in c.stored ==> b in c.frozen
    ensures var c := ChainOf(StateAfter(H, L, ops), pid); Linked(c.stored) && Recoverable(c, v)
  {
    RunAgrees(H, L, ops, loss);
    RunRegular(H, L, ops, loss);
    var s, h := StateAfter(H, L, ops), HistoryAfter(H, L, ops);
    var g: Snaps :| TrieInv(H, L, s, g, h, loss);
    assert PageInv(H, L, s, g, h, pid, loss) && Regular(ChainOf(s, pid));
    CoveredIsRecoverable(ChainOf(s, pid), Kind(L, pid), ChainOf(s, pid).cur, v);
  }

  /** A load of the newest version of any page replays fewer than TB items. */
  lemma RunLoadIsShort(H: Hash, L: nat, ops: seq<Op>, pid: Path, loss: Loss)
    requires IsRun(H, L, ops, loss) && KeepsCounts(H, L, ops) && PageId(L, pid)
    ensures var c := ChainOf(StateAfter(H, L, ops), pid);
            |Flatten(Walk(c.stored, c.active.last).0 + [c.active])| < TB
  {
    RunCounters(H, L, ops, pid, loss);
    RunRegular(H, L, ops, loss);
    assert Regular(ChainOf(StateAfter(H, L, ops), pid));
    NewestLoadIsShort(ChainOf(StateAfter(H, L, ops), pid));
  }
}
