/** Which runs keep every committed version readable: exactly those in which no commit takes
    a checkpoint of a page before it has frozen a delta page of it. In such a run, whatever
    was reloaded from files and with whatever base counts, Get, GetRootHash and GetProof are
    right about every committed version and not only about the newest. */
module Historical {
  import opened Types
  import opened Pages
  import opened Chains
  import opened ChainInvariant
  import opened PageCommits
  import opened Loads
  import opened Counting
  import opened Copies
  import opened Evolution
  import opened Lost
  import opened ValueLog
  import opened History
  import opened PageSpecs
  import opened TrieState
  import opened TrieRuns
  import opened TrieReads
  import opened TrieTheorems
  import opened TrieSteps
  import opened TrieCounters

  /** No version of the page is lost. */
  ghost predicate Covered(c: Chain) {
    Linked(c.stored) && forall v: nat :: Recoverable(c, v)
  }

  ghost predicate CoveredState(L: nat, s: State) {
    forall pid :: PageId(L, pid) ==> Covered(ChainOf(s, pid))
  }

  /** Whether a work item takes a checkpoint before a delta page is frozen. */
  predicate Harmless(L: nat, s: State, work: Work) {
    !Uncovered(ChainOf(s, work.pid).active, |work.nibs|, Kind(L, work.pid))
  }

  ghost predicate Gentle(L: nat, s: State, plan: seq<Work>) {
    forall x :: 0 <= x < |plan| ==> Harmless(L, s, plan[x])
  }

  /* ---- One page ---- */

  /** An uncovered checkpoint loses at least the version before its own. */
  lemma UncoveredLoses(c: Chain, n: nat, top: nat, w: nat, m: nat)
    requires Structure(c, n, top) && top < w && Uncovered(c.active, m, n)
    ensures Recoverable(c, w - 1) && Loses(c, m, n, w - 1)
  {
    FirstAboveIs(c.frozen, w - 1);
  }

  lemma WereRecoverable(b: Chain, c: Chain, n: nat, w: nat)
    requires Stage(b, c, n, w) && Structure(b, n, w) && Covered(c)
    ensures Covered(b)
  {
    forall v: nat ensures Recoverable(b, v) {
      if v < w { RecoverableBefore(b, c, n, w, v); }
    }
  }

  lemma AllLost(H: Hash, c: Chain, p: Page, pid: Path, top: nat, w: nat, calls: seq<Call>, n: nat)
    requires Shaped(p, n) && calls != [] && ValidCalls(calls, n) && Counters(c) && top < w && Structure(c, n, top)
    requires Uncovered(c.active, |calls|, n)
    ensures !Covered(CommitPage(H, c, p, pid, w, calls, n).0)
  {
    UncoveredLoses(c, n, top, w, |calls|);
    CommitLosesIff(H, c, p, pid, top, w, calls, n, w - 1);
  }

  lemma NoneLost(H: Hash, c: Chain, p: Page, pid: Path, top: nat, w: nat, calls: seq<Call>, n: nat, v: nat)
    requires Shaped(p, n) && calls != [] && ValidCalls(calls, n) && Counters(c) && top < w && Structure(c, n, top)
    requires Covered(c) && !Uncovered(c.active, |calls|, n)
    ensures var c' := CommitPage(H, c, p, pid, w, calls, n).0; Linked(c'.stored) && Recoverable(c', v)
  {
    CommitCovered(H, c, p, pid, top, w, calls, n);
    if v < w { CommitLosesIff(H, c, p, pid, top, w, calls, n, v); }
  }

  /** A commit leaves all versions of a page recoverable if and only if they all were and
      its checkpoint, if any, comes after a frozen delta page. */
  lemma CommitCovers(H: Hash, c: Chain, p: Page, pid: Path, top: nat, w: nat, calls: seq<Call>, n: nat)
    requires Shaped(p, n) && calls != [] && ValidCalls(calls, n) && Counters(c) && top < w && Structure(c, n, top)
    ensures Covered(CommitPage(H, c, p, pid, w, calls, n).0) <==> Covered(c) && !Uncovered(c.active, |calls|, n)
  {
    var c' := CommitPage(H, c, p, pid, w, calls, n).0;
    if Uncovered(c.active, |calls|, n) {
      AllLost(H, c, p, pid, top, w, calls, n);
    } else if Covered(c) {
      NoneLost(H, c, p, pid, top, w, calls, n, 0);
      forall v: nat ensures Recoverable(c', v) { NoneLost(H, c, p, pid, top, w, calls, n, v); }
    } else if Covered(c') {
      CommitCovered(H, c, p, pid, top, w, calls, n);
      RaiseTop(c, n, top, w);
      WereRecoverable(c, c', n, w);
    }
  }

  lemma StepCovers(H: Hash, L: nat, s: State, w: nat, c: Chain, m: Move)
    requires Brought(H, L, s, w, c, m)
    ensures Covered(c) <==> Covered(ChainOf(s, m.work.pid)) && Harmless(L, s, m.work)
  {
    var pid := m.work.pid;
    assert BroughtTo(H, L, s, w, c, m);
    CommitCovers(H, ChainOf(s, pid), m.p, pid, ChainOf(s, pid).cur, w, m.calls, Kind(L, pid));
  }

  /** Copies lose nothing and restore nothing. */
  lemma CopyCovers(c: Chain, d: Chain, loss: Loss)
    requires Linked(c.stored) && ChainCopy(c, d, loss)
    ensures Covered(d) <==> Covered(c)
  {
    CopyLinked(c, d, loss);
    forall v: nat ensures Recoverable(c, v) <==> Recoverable(d, v) { CopyRecoverable(c, d, v, loss); }
  }

  /* ---- A whole commit ---- */

  lemma MovesCovered(H: Hash, L: nat, s: State, s': State, w: nat, moves: Moves, plan: seq<Work>,
                     loss: Loss)
    requires Moved(H, L, s, s', w, moves, loss) && MovesOf(moves, plan) && CoveredState(L, s) && Gentle(L, s, plan)
    ensures CoveredState(L, s')
  {
    forall pid | PageId(L, pid) ensures Covered(ChainOf(s', pid)) {
      assert ChainMoved(H, L, s, s', w, moves, pid, loss) && Covered(ChainOf(s, pid));
      if pid in moves {
        var x :| 0 <= x < |plan| && plan[x] == moves[pid].work;
        assert Harmless(L, s, plan[x]);
        StepCovers(H, L, s, w, ChainOf(s', pid), moves[pid]);
      }
    }
  }

  lemma MovesWereCovered(H: Hash, L: nat, s: State, s': State, w: nat, moves: Moves, plan: seq<Work>,
                     loss: Loss)
    requires Moved(H, L, s, s', w, moves, loss) && MovesOf(moves, plan) && CoveredState(L, s')
    requires forall x :: 0 <= x < |plan| ==> PageId(L, plan[x].pid)
    ensures CoveredState(L, s) && Gentle(L, s, plan)
  {
    forall pid | PageId(L, pid) ensures Covered(ChainOf(s, pid)) {
      assert ChainMoved(H, L, s, s', w, moves, pid, loss) && Covered(ChainOf(s', pid));
      if pid in moves { StepCovers(H, L, s, w, ChainOf(s', pid), moves[pid]); }
    }
    forall x | 0 <= x < |plan| ensures Harmless(L, s, plan[x]) {
      var pid := plan[x].pid;
      assert ChainMoved(H, L, s, s', w, moves, pid, loss) && Covered(ChainOf(s', pid));
      StepCovers(H, L, s, w, ChainOf(s', pid), moves[pid]);
    }
  }

  lemma CommitCoveredIff(H: Hash, L: nat, s: State, h: seq<Commit>, op: Op, loss: Loss)
    requires Agrees(H, L, s, h, loss) && Enabled(L, s, h, op, loss) && op.DoCommit? && s.put != map[]
    ensures CoveredState(L, Apply(H, L, s, op)) <==> CoveredState(L, s) && Gentle(L, s, op.plan)
  {
    var s', w := Apply(H, L, s, op), op.version;
    var moves := CommitMoves(H, L, s, h, op, loss);
    if CoveredState(L, s') {
      MovesWereCovered(H, L, s, s', w, moves, op.plan, loss);
    } else if CoveredState(L, s) && Gentle(L, s, op.plan) {
      MovesCovered(H, L, s, s', w, moves, op.plan, loss);
    }
  }

  /* ---- Runs ---- */

  lemma ReloadCoveredIff(H: Hash, L: nat, s: State, h: seq<Commit>, chains: map<Path, Chain>, loss: Loss)
    requires Agrees(H, L, s, h, loss) && Enabled(L, s, h, DoReload(chains), loss)
    ensures CoveredState(L, s.(chains := chains)) <==> CoveredState(L, s)
  {
    var s' := s.(chains := chains);
    forall pid | PageId(L, pid) ensures Covered(ChainOf(s', pid)) <==> Covered(ChainOf(s, pid)) {
      if pid in chains { CopyCovers(ChainOf(s, pid), chains[pid], loss); }
    }
  }

  lemma SameCovered(L: nat, s: State, s': State)
    requires s'.chains == s.chains
    ensures CoveredState(L, s') <==> CoveredState(L, s)
  {
    assert forall pid :: ChainOf(s', pid) == ChainOf(s, pid);
  }

  /** What an operation must be for nothing to get lost. */
  ghost predicate Keeps(L: nat, s: State, op: Op) {
    op.DoCommit? && s.put != map[] ==> Gentle(L, s, op.plan)
  }

  lemma ApplyCoveredIff(H: Hash, L: nat, s: State, h: seq<Commit>, op: Op, loss: Loss)
    requires Agrees(H, L, s, h, loss) && Enabled(L, s, h, op, loss)
    ensures CoveredState(L, Apply(H, L, s, op)) <==> CoveredState(L, s) && Keeps(L, s, op)
  {
    if op.DoCommit? && s.put != map[] {
      CommitCoveredIff(H, L, s, h, op, loss);
    } else if op.DoReload? {
      ReloadCoveredIff(H, L, s, h, op.chains, loss);
    } else {
      OthersSameChains(H, L, s, op);
      SameCovered(L, s, Apply(H, L, s, op));
    }
  }

  /** No commit of the run takes a checkpoint before it has frozen a delta page. */
  ghost predicate AllGentle(H: Hash, L: nat, ops: seq<Op>) {
    ops == [] ||
    (AllGentle(H, L, ops[..|ops| - 1]) && Keeps(L, StateAfter(H, L, ops[..|ops| - 1]), ops[|ops| - 1]))
  }

  /** After any run all versions of all pages are recoverable if and only if no commit of the
      run took a checkpoint before it had frozen a delta page. */
  lemma {:induction false} RunIsCovered(H: Hash, L: nat, ops: seq<Op>, loss: Loss)
    requires IsRun(H, L, ops, loss)
    ensures CoveredState(L, StateAfter(H, L, ops)) <==> AllGentle(H, L, ops)
  {
    if ops == [] {
    } else {
      var before := ops[..|ops| - 1];
      RunIsCovered(H, L, before, loss);
      RunAgrees(H, L, before, loss);
      ApplyCoveredIff(H, L, StateAfter(H, L, before), HistoryAfter(H, L, before), ops[|ops| - 1], loss);
    }
  }

  /** Where the counters are regular only batches of TD pieces or more over an empty active
      delta page do harm. */
  lemma RunHarmlessIff(H: Hash, L: nat, ops: seq<Op>, work: Work, loss: Loss)
    requires IsRun(H, L, ops, loss) && KeepsCounts(H, L, ops) && PageId(L, work.pid)
    ensures var s := StateAfter(H, L, ops);
            Harmless(L, s, work) <==> |work.nibs| < TD || ChainOf(s, work.pid).active.count != 0
  {
    RunCounters(H, L, ops, work.pid, loss);
    RunRegular(H, L, ops, loss);
    assert Regular(ChainOf(StateAfter(H, L, ops), work.pid));
    SyncedUncoveredIff(ChainOf(StateAfter(H, L, ops), work.pid), |work.nibs|, Kind(L, work.pid));
  }

  /** Nothing of such a run is ever lost. */
  lemma NothingLost(H: Hash, L: nat, ops: seq<Op>, v: nat, k: Path, loss: Loss)
    requires IsRun(H, L, ops, loss) && AllGentle(H, L, ops) && |k| == L
    ensures PathRecoverable(StateAfter(H, L, ops), HistoryAfter(H, L, ops), v, k)
  {
    var s, h := StateAfter(H, L, ops), HistoryAfter(H, L, ops);
    RunIsCovered(H, L, ops, loss);
    forall i | 0 <= i <= |k| && i % 2 == 0 ensures PageRecoverable(s, h, v, k[..i]) {
      assert Covered(ChainOf(s, k[..i]));
    }
  }

  /** Get is right about every committed version. */
  lemma GetHistorical(H: Hash, L: nat, ops: seq<Op>, v: nat, k: Path, loss: Loss)
    requires IsRun(H, L, ops, loss) && AllGentle(H, L, ops) && |k| == L
    requires Committed(HistoryAfter(H, L, ops), v)
    ensures Get(StateAfter(H, L, ops), v, k).0 == Some(FirstLine(Value(Upto(HistoryAfter(H, L, ops), v), k)))
  {
    RunAgrees(H, L, ops, loss);
    NothingLost(H, L, ops, v, k, loss);
    GetIsValue(H, L, StateAfter(H, L, ops), HistoryAfter(H, L, ops), v, k, loss);
  }

  /** The proof of a key at any committed version is accepted with a value exactly if it
      is the key's value then; for a deleted key, whose leaf hash is "", with none that
      does not hash to "". */
  lemma ProofHistorical(H: Hash, L: nat, ops: seq<Op>, v: nat, k: Path, value: Bytes)
    requires IsRun(H, L, ops, Lossless) && AllGentle(H, L, ops) && |k| == L && Injective(H)
    requires Committed(HistoryAfter(H, L, ops), v) && k in Contents(Upto(HistoryAfter(H, L, ops), v))
    ensures var s, now := StateAfter(H, L, ops), Value(Upto(HistoryAfter(H, L, ops), v), k);
            var proof, root := GetProof(s, v, k).0, GetRootHash(s, v).0;
            proof.Some? && root.Some? && |proof.value.nodes| == L && Wide(proof.value.nodes) &&
            (Verify(H, value, root.value, proof.value.nodes) <==> if now == [] then H(value) == [] else value == now)
  {
    RunAgrees(H, L, ops, Lossless);
    NothingLost(H, L, ops, v, k, Lossless);
    ProofAcceptsIff(H, L, StateAfter(H, L, ops), HistoryAfter(H, L, ops), v, k, value);
  }
}
