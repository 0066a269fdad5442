/** A commit only adds stored pages, all under its own version, for every page id at once. */
module TrieGrowth {
  import opened Types
  import opened Pages
  import opened Chains
  import opened Evolution
  import opened Lost
  import opened History
  import opened PageSpecs
  import opened TrieState
  import opened TrieInvariant
  import opened TrieCommit
  import opened TrieRuns
  import opened TrieSteps

  ghost predicate GrownState(L: nat, s: State, s': State, w: nat) {
    forall pid :: PageId(L, pid) ==> Grown(ChainOf(s, pid).stored, ChainOf(s', pid).stored, w)
  }

  ghost predicate OlderThan(L: nat, s: State, w: nat) {
    forall pid, k :: PageId(L, pid) && k in ChainOf(s, pid).stored ==> 0 < k.version < w
  }

  lemma StepGrown(H: Hash, L: nat, s: State, w: nat, c: Chain, m: Move)
    requires Brought(H, L, s, w, c, m)
    ensures Grown(ChainOf(s, m.work.pid).stored, c.stored, w)
  {
    var pid := m.work.pid;
    assert BroughtTo(H, L, s, w, c, m);
    CommitCovered(H, ChainOf(s, pid), m.p, pid, ChainOf(s, pid).cur, w, m.calls, Kind(L, pid));
  }

  /** A commit adds pages of its version only, and all pages there were are older. */
  lemma CommitGrows(H: Hash, L: nat, s: State, h: seq<Commit>, op: Op, loss: Loss)
    requires Agrees(H, L, s, h, loss) && Enabled(L, s, h, op, loss) && op.DoCommit? && s.put != map[]
    ensures GrownState(L, s, Apply(H, L, s, op), op.version) && OlderThan(L, s, op.version)
  {
    var s', w := Apply(H, L, s, op), op.version;
    var moves := CommitMoves(H, L, s, h, op, loss);
    forall pid | PageId(L, pid) ensures Grown(ChainOf(s, pid).stored, ChainOf(s', pid).stored, w) {
      assert ChainMoved(H, L, s, s', w, moves, pid, loss);
      if pid in moves { StepGrown(H, L, s, w, ChainOf(s', pid), moves[pid]); }
    }
    AllOlder(H, L, s, h, w, loss);
  }

  lemma AllOlder(H: Hash, L: nat, s: State, h: seq<Commit>, w: nat, loss: Loss)
    requires Agrees(H, L, s, h, loss) && s.put != map[] && Latest(h) < w
    ensures OlderThan(L, s, w)
  {
    var g: Snaps :| TrieInv(H, L, s, g, h, loss);
    HistoryGrows(h, Commit(w, s.put), L);
    forall pid, k | PageId(L, pid) && k in ChainOf(s, pid).stored ensures 0 < k.version < w {
      StoredBelow(H, L, s, g, h, Commit(w, s.put), pid, k, loss);
    }
  }

  lemma StoredBelow(H: Hash, L: nat, s: State, g: Snaps, h: seq<Commit>, cm: Commit, pid: Path, k: Key, loss: Loss)
    requires ValidHistory(h + [cm], L) && ValidHistory(h, L) && PageId(L, pid) && PageInv(H, L, s, g, h, pid, loss)
    requires k in ChainOf(s, pid).stored
    ensures 0 < k.version < cm.version
  {
    CurBelow(h, cm, L, pid);
    assert LinkedAt(ChainOf(s, pid).stored, k);
  }
}
