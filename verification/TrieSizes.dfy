/** What every run stores fits its page and its fields. */
module TrieSizes {
  import opened Types
  import opened Pages
  import opened Chains
  import opened BaseCodec
  import opened DeltaCodec
  import opened Sizes
  import opened ValueLog
  import opened History
  import opened PageSpecs
  import opened TrieState
  import opened TrieRuns
  import opened TrieSteps
  import opened TrieCounters

  /* ---- How many items ---- */

  ghost predicate SizedState(L: nat, s: State) {
    forall pid :: PageId(L, pid) ==> Sized(ChainOf(s, pid))
  }

  lemma StepSized(H: Hash, L: nat, s: State, w: nat, c: Chain, m: Move)
    requires Brought(H, L, s, w, c, m) && Sized(ChainOf(s, m.work.pid))
    ensures Sized(c)
  {
    var pid := m.work.pid;
    assert BroughtTo(H, L, s, w, c, m);
    CommitSized(H, ChainOf(s, pid), m.p, pid, ChainOf(s, pid).cur, w, m.calls, Kind(L, pid));
  }

  lemma ApplySized(H: Hash, L: nat, s: State, h: seq<Commit>, op: Op, loss: Loss)
    requires Agrees(H, L, s, h, loss) && Enabled(L, s, h, op, loss) && SizedState(L, s)
    ensures SizedState(L, Apply(H, L, s, op))
  {
    var s' := Apply(H, L, s, op);
    if op.DoCommit? && s.put != map[] {
      var moves := CommitMoves(H, L, s, h, op, loss);
      forall pid | PageId(L, pid) ensures Sized(ChainOf(s', pid)) {
        assert ChainMoved(H, L, s, s', op.version, moves, pid, loss) && Sized(ChainOf(s, pid));
        if pid in moves { StepSized(H, L, s, op.version, ChainOf(s', pid), moves[pid]); }
      }
    } else {
      if !op.DoReload? { OthersSameChains(H, L, s, op); }
      forall pid | PageId(L, pid) ensures Sized(ChainOf(s', pid)) {
        assert Sized(ChainOf(s, pid));
        if op.DoReload? && pid in op.chains { CopySized(ChainOf(s, pid), op.chains[pid], loss); }
      }
    }
  }

  lemma {:induction false} RunSized(H: Hash, L: nat, ops: seq<Op>, loss: Loss)
    requires IsRun(H, L, ops, loss)
    ensures SizedState(L, StateAfter(H, L, ops))
  {
    if ops == [] {
      assert Sized(NEW_CHAIN);
    } else {
      var before := ops[..|ops| - 1];
      RunSized(H, L, before, loss);
      RunAgrees(H, L, before, loss);
      ApplySized(H, L, StateAfter(H, L, before), HistoryAfter(H, L, before), ops[|ops| - 1], loss);
    }
  }

  /** Every delta page of a run, active or stored, fits its page. */
  lemma RunDeltasFit(H: Hash, L: nat, ops: seq<Op>, pid: Path, k: Key, loss: Loss)
    requires IsRun(H, L, ops, loss) && PageId(L, pid) && |pid| <= 2624
    ensures var c := ChainOf(StateAfter(H, L, ops), pid);
            PrintDelta(HexString(pid), c.active).Some? &&
            (k in c.stored && c.stored[k].Delta? ==> PrintDelta(HexString(pid), c.stored[k].d).Some?)
  {
    RunSized(H, L, ops, loss);
    assert Sized(ChainOf(StateAfter(H, L, ops), pid));
    SizedFits(ChainOf(StateAfter(H, L, ops), pid), pid, k);
  }

  /* ---- Numbers and keys ---- */

  ghost predicate FitChains(L: nat, chains: map<Path, Chain>, bound: Bound) {
    forall pid :: pid in chains && PageId(L, pid) ==> FitChain(HexString(pid), chains[pid], bound)
  }

  ghost predicate FitState(L: nat, s: State, bound: Bound) {
    && (forall pid :: PageId(L, pid) ==> FitChain(HexString(pid), ChainOf(s, pid), bound))
    && (forall k :: k in s.cache && PageId(L, k.pid) ==> FitPage(HexString(k.pid), s.cache[k], bound))
    && (bound.full ==> Live(s.put))
  }

  /** What keeps hashes at 32 bytes: the hash function, and that they can be trusted. */
  ghost predicate KeepsFull(H: Hash, bound: Bound, loss: Loss) {
    bound.full ==> WideHash(H) && !loss.Hashless?
  }

  /** File numbers and offsets stay below the bound. */
  ghost predicate LogBelow(log: Log, bound: Bound) {
    bound.top.Some? ==>
      |log.files| <= bound.top.value && forall i :: 0 <= i < |log.files| ==> |log.files[i]| < bound.top.value
  }

  lemma CallsFit(log: Log, calls: seq<Call>, bound: Bound)
    requires CallsIn(log, calls) && LogBelow(log, bound) && Num(0, bound)
    requires bound.full ==> forall x :: 0 <= x < |calls| ==> Solid(calls[x])
    ensures FitCalls(calls, bound)
  {
    forall x | 0 <= x < |calls| ensures FitCall(calls[x], bound) {
      if calls[x].loc != NO_LOCATION { assert ValidLocation(log, calls[x].loc); }
    }
  }

  lemma OpenedFits(L: nat, s: State, pid: Path, p: Page, bound: Bound)
    requires FitState(L, s, bound) && PageId(L, pid) && CanOpen(s, pid, p) && Num(0, bound)
    ensures FitPage(HexString(pid), p, bound)
  {
    var c := ChainOf(s, pid);
    assert FitChain(HexString(pid), c, bound);
    if LoadPage(c, s.current, c.cur).Found? { LoadFits(HexString(pid), c, s.current, c.cur, bound); }
  }

  lemma StepFits(H: Hash, L: nat, s: State, log: Log, w: nat, c: Chain, m: Move, bound: Bound, loss: Loss)
    requires Brought(H, L, s, w, c, m) && CallsIn(log, m.calls) && PageId(L, m.work.pid)
    requires FitState(L, s, bound) && LogBelow(log, bound) && Num(w, bound) && Num(0, bound)
    requires KeepsFull(H, bound, loss) && Feeds(H, s.put, m.calls, loss)
    ensures FitChain(HexString(m.work.pid), c, bound) && FitPage(HexString(m.work.pid), m.q, bound)
  {
    var pid := m.work.pid;
    assert BroughtTo(H, L, s, w, c, m);
    CallsFit(log, m.calls, bound);
    OpenedFits(L, s, pid, m.p, bound);
    assert FitChain(HexString(pid), ChainOf(s, pid), bound);
    CommitFits(H, ChainOf(s, pid), m.p, pid, w, m.calls, Kind(L, pid), bound);
  }

  lemma MovesFit(H: Hash, L: nat, s: State, s': State, w: nat, moves: Moves, bound: Bound, loss: Loss)
    requires Moved(H, L, s, s', w, moves, loss) && FitState(L, s, bound) && LogBelow(s'.log, bound) && Num(w, bound) &&
             Num(0, bound)
    requires KeepsFull(H, bound, loss) && s'.put == map[]
    ensures FitState(L, s', bound)
  {
    forall pid | PageId(L, pid) ensures FitChain(HexString(pid), ChainOf(s', pid), bound) {
      assert ChainMoved(H, L, s, s', w, moves, pid, loss);
      assert FitChain(HexString(pid), ChainOf(s, pid), bound);
      if pid in moves { StepFits(H, L, s, s'.log, w, ChainOf(s', pid), moves[pid], bound, loss); }
    }
    forall k | k in s'.cache && PageId(L, k.pid) ensures FitPage(HexString(k.pid), s'.cache[k], bound) {
      assert CacheMoved(s, s', w, moves, k) && ChainMoved(H, L, s, s', w, moves, k.pid, loss);
      if !(k in s.cache && s'.cache[k] == s.cache[k]) {
        StepFits(H, L, s, s'.log, w, ChainOf(s', k.pid), moves[k.pid], bound, loss);
      }
    }
  }

  lemma ReadFits(L: nat, s: State, v: nat, pid: Path, bound: Bound)
    requires FitState(L, s, bound) && PageId(L, pid) && Num(0, bound)
    ensures FitState(L, GetPage(s, v, pid).1, bound)
  {
    var c := ChainOf(s, pid);
    assert FitChain(HexString(pid), c, bound);
    if LoadPage(c, s.current, v).Found? { LoadFits(HexString(pid), c, s.current, v, bound); }
    SameFit(L, s, GetPage(s, v, pid).1, CacheKey(v, pid), bound);
  }

  /** The chains as before, and nothing new cached but one page that fits. */
  lemma SameFit(L: nat, s: State, s': State, key: CacheKey, bound: Bound)
    requires FitState(L, s, bound) && s'.chains == s.chains
    requires forall k :: k in s'.cache && k != key ==> k in s.cache && s'.cache[k] == s.cache[k]
    requires key in s'.cache && PageId(L, key.pid) ==> FitPage(HexString(key.pid), s'.cache[key], bound)
    requires bound.full ==> Live(s'.put)
    ensures FitState(L, s', bound)
  {
    forall pid | PageId(L, pid) ensures FitChain(HexString(pid), ChainOf(s', pid), bound) {
      assert FitChain(HexString(pid), ChainOf(s, pid), bound);
    }
  }

  lemma NewChainFits(pid: Bytes, bound: Bound)
    requires Num(0, bound)
    ensures FitChain(pid, NEW_CHAIN, bound)
  {
  }

  lemma ReloadFits(L: nat, s: State, chains: map<Path, Chain>, bound: Bound)
    requires FitState(L, s, bound) && FitChains(L, chains, bound) && s.chains.Keys <= chains.Keys && Num(0, bound)
    ensures FitState(L, s.(chains := chains), bound)
  {
    forall pid | PageId(L, pid) ensures FitChain(HexString(pid), ChainOf(s.(chains := chains), pid), bound) {
      NewChainFits(HexString(pid), bound);
    }
  }

  /** The commit's version, or what is reloaded, fits; with full set no key is deleted. */
  ghost predicate FitOp(L: nat, op: Op, bound: Bound) {
    (op.DoCommit? ==> Num(op.version, bound)) && (op.DoReload? ==> FitChains(L, op.chains, bound)) &&
    (bound.full ==> !op.DoDelete?)
  }

  lemma CommitsFit(H: Hash, L: nat, s: State, h: seq<Commit>, op: Op, bound: Bound, loss: Loss)
    requires Agrees(H, L, s, h, loss) && Enabled(L, s, h, op, loss) && op.DoCommit? && s.put != map[]
    requires FitState(L, s, bound) && Num(op.version, bound) && Num(0, bound) && LogBelow(Apply(H, L, s, op).log, bound)
    requires KeepsFull(H, bound, loss)
    ensures FitState(L, Apply(H, L, s, op), bound)
  {
    var moves := CommitMoves(H, L, s, h, op, loss);
    MovesFit(H, L, s, Apply(H, L, s, op), op.version, moves, bound, loss);
  }

  lemma OthersFit(H: Hash, L: nat, s: State, op: Op, bound: Bound)
    requires FitState(L, s, bound) && FitOp(L, op, bound) && Num(0, bound)
    requires op.DoCommit? ==> s.put == map[]
    requires op.DoRead? ==> PageId(L, op.pid)
    requires op.DoReload? ==> s.chains.Keys <= op.chains.Keys
    ensures FitState(L, Apply(H, L, s, op), bound)
  {
    match op
    case DoRead(v, pid) => ReadFits(L, s, v, pid, bound);
    case DoReload(chains) => ReloadFits(L, s, chains, bound);
    case _ => SameFit(L, s, Apply(H, L, s, op), CacheKey(0, seq(L + 1, _ => 0)), bound);
  }

  lemma ApplyFits(H: Hash, L: nat, s: State, h: seq<Commit>, op: Op, bound: Bound, loss: Loss)
    requires Agrees(H, L, s, h, loss) && Enabled(L, s, h, op, loss) && FitState(L, s, bound)
    requires FitOp(L, op, bound) && LogBelow(Apply(H, L, s, op).log, bound) && Num(0, bound)
    requires KeepsFull(H, bound, loss)
    ensures FitState(L, Apply(H, L, s, op), bound)
  {
    if op.DoCommit? && s.put != map[] {
      CommitsFit(H, L, s, h, op, bound, loss);
    } else {
      OthersFit(H, L, s, op, bound);
    }
  }

  ghost predicate FitOps(L: nat, ops: seq<Op>, bound: Bound) {
    forall i :: 0 <= i < |ops| ==> FitOp(L, ops[i], bound)
  }

  /** In every run whose versions and log places fit, and whose reloads bring what fits, all
      that is stored, active or cached fits. */
  lemma {:induction false} RunFits(H: Hash, L: nat, ops: seq<Op>, bound: Bound, loss: Loss)
    requires IsRun(H, L, ops, loss) && FitOps(L, ops, bound) && LogBelow(StateAfter(H, L, ops).log, bound) &&
             Num(0, bound) && KeepsFull(H, bound, loss)
    ensures FitState(L, StateAfter(H, L, ops), bound)
  {
    if ops == [] {
      NewTrieFits(L, bound);
    } else {
      var before, op := ops[..|ops| - 1], ops[|ops| - 1];
      RunAgrees(H, L, before, loss);
      LogWasShorter(H, L, StateAfter(H, L, before), HistoryAfter(H, L, before), op, bound, loss);
      RunFits(H, L, before, bound, loss);
      ApplyFits(H, L, StateAfter(H, L, before), HistoryAfter(H, L, before), op, bound, loss);
    }
  }

  lemma NewTrieFits(L: nat, bound: Bound)
    requires Num(0, bound)
    ensures FitState(L, NEW_TRIE, bound)
  {
    forall pid | PageId(L, pid) ensures FitChain(HexString(pid), ChainOf(NEW_TRIE, pid), bound) {
      NewChainFits(HexString(pid), bound);
    }
  }

  lemma LogWasShorter(H: Hash, L: nat, s: State, h: seq<Commit>, op: Op, bound: Bound, loss: Loss)
    requires Agrees(H, L, s, h, loss) && Enabled(L, s, h, op, loss)
    requires LogBelow(Apply(H, L, s, op).log, bound)
    ensures LogBelow(s.log, bound)
  {
    if op.DoCommit? && s.put != map[] {
      var moves := CommitMoves(H, L, s, h, op, loss);
    } else {
      OthersSameLog(H, L, s, op);
    }
  }

  lemma OthersSameLog(H: Hash, L: nat, s: State, op: Op)
    requires (op.DoCommit? ==> s.put == map[])
    ensures Apply(H, L, s, op).log == s.log
  {
  }

  /** Every checkpoint that a run stores fits its page, unless a reload brought longer keys. */
  lemma RunBasesFit(H: Hash, L: nat, ops: seq<Op>, pid: Path, k: Key, loss: Loss)
    requires IsRun(H, L, ops, loss) && FitOps(L, ops, ANY) && PageId(L, pid) && |pid| <= 610
    requires var c := ChainOf(StateAfter(H, L, ops), pid); k in c.stored && c.stored[k].Base?
    ensures var p := ChainOf(StateAfter(H, L, ops), pid).stored[k].p;
            p.root.Some? && PrintPage(HexString(pid), p).Some?
  {
    var s := StateAfter(H, L, ops);
    RunFits(H, L, ops, ANY, loss);
    RunAgrees(H, L, ops, loss);
    assert FitChain(HexString(pid), ChainOf(s, pid), ANY);
    assert FitStored(HexString(pid), ChainOf(s, pid).stored[k], ANY);
    PageAlwaysFits(HexString(pid), ChainOf(s, pid).stored[k].p, Kind(L, pid));
  }
}
