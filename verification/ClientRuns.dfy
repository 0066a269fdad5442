/** Runs of the trie and of the whole store, seen by their clients: the recorded history and
    the buffer are what the calls alone say they must be. */
module ClientRuns {
  import opened Types
  import opened Pages
  import opened ValueLog
  import opened History
  import opened Clients
  import opened TrieState
  import opened TrieRuns
  import opened TrieReads
  import opened TrieTheorems
  import opened TriePool
  import S = StoreRuns
  import F = Storage
  import P = DeltaPool
  import R = ReadBacks

  /* ---- Runs of the trie ---- */

  function EventOf(op: TrieRuns.Op): Event {
    match op
    case DoPut(v, k, value) => Puts(v, k, value)
    case DoDelete(v, k) => Deletes(v, k)
    case DoCommit(w, _, _) => Commits(w)
    case _ => Passes
  }

  function EventsOf(ops: seq<TrieRuns.Op>): (es: seq<Event>)
    ensures |es| == |ops| && forall i :: 0 <= i < |ops| ==> es[i] == EventOf(ops[i])
  {
    seq(|ops|, i requires 0 <= i < |ops| => EventOf(ops[i]))
  }

  ghost predicate Serves(s: State, h: seq<Commit>, c: Client) {
    s.current == c.current && s.put == c.put && h == c.history
  }

  lemma {:induction false} CommitKeepsCurrent(H: Hash, L: nat, s: State, w: nat, plan: seq<Work>,
                                              evict: seq<set<CacheKey>>)
    ensures var s' := CommitAll(H, L, s, w, plan, evict); s'.current == s.current && s'.put == s.put
    decreases |plan|
  {
    if plan != [] {
      var s0 := if evict == [] then s else Evict(s, evict[0], w);
      var s1 := CommitOne(H, L, s0, w, plan[0].pid, plan[0].nibs);
      CommitKeepsCurrent(H, L, s1, w, plan[1..], if evict == [] then [] else evict[1..]);
    }
  }

  lemma ApplyServes(H: Hash, L: nat, s: State, h: seq<Commit>, op: TrieRuns.Op, c: Client, loss: Loss)
    requires Serves(s, h, c) && Enabled(L, s, h, op, loss)
    ensures Serves(TrieRuns.Apply(H, L, s, op), Recorded(h, s, op), Act(c, EventOf(op)))
  {
    if op.DoCommit? { CommitKeepsCurrent(H, L, s, op.version, op.plan, op.evict); }
  }

  lemma EventsSnoc(ops: seq<TrieRuns.Op>, op: TrieRuns.Op)
    ensures ClientAfter(EventsOf(ops + [op])) == Act(ClientAfter(EventsOf(ops)), EventOf(op))
  {
    var es := EventsOf(ops + [op]);
    assert es[..|ops|] == EventsOf(ops) && es[|ops|] == EventOf(op);
  }

  /** Version, buffer and history of a run are what its calls leave. */
  lemma {:induction false} RunServes(H: Hash, L: nat, ops: seq<TrieRuns.Op>, loss: Loss)
    requires IsRun(H, L, ops, loss)
    ensures Serves(StateAfter(H, L, ops), HistoryAfter(H, L, ops), ClientAfter(EventsOf(ops)))
    decreases |ops|
  {
    if ops != [] {
      var before, op := ops[..|ops| - 1], ops[|ops| - 1];
      RunServes(H, L, before, loss);
      assert ops == before + [op];
      EventsSnoc(before, op);
      ApplyServes(H, L, StateAfter(H, L, before), HistoryAfter(H, L, before), op, ClientAfter(EventsOf(before)), loss);
    }
  }

  /** After a run whose last commit is c, Get at the newest version answers what the last
      accepted write of the key before c wrote. */
  lemma GetLastWrite(H: Hash, L: nat, ops: seq<TrieRuns.Op>, c: nat, i: nat, k: Path, loss: Loss)
    returns (s: State, h: seq<Commit>)
    requires IsRun(H, L, ops, loss) && |k| == L && LastCommit(EventsOf(ops), c) && i < c
    requires Writes(EventsOf(ops), i, k) && forall j: nat :: i < j < c ==> !Writes(EventsOf(ops), j, k)
    ensures s == StateAfter(H, L, ops) && h == HistoryAfter(H, L, ops) && h != []
    ensures Value(h, k) == Written(EventsOf(ops)[i])
    ensures Get(s, Latest(h), k).0 == Some(FirstLine(Written(EventsOf(ops)[i])))
  {
    RunServes(H, L, ops, loss);
    ValueIsLastWrite(EventsOf(ops), c, i, k);
    assert k in Contents(HistoryAfter(H, L, ops));
    s, h := GetNewest(H, L, ops, k, loss);
  }

  /** And "" for a key that no accepted write before c names. */
  lemma GetUnwritten(H: Hash, L: nat, ops: seq<TrieRuns.Op>, c: nat, k: Path, loss: Loss)
    returns (s: State, h: seq<Commit>)
    requires IsRun(H, L, ops, loss) && |k| == L && LastCommit(EventsOf(ops), c) && HistoryAfter(H, L, ops) != []
    requires forall j: nat :: j < c ==> !Writes(EventsOf(ops), j, k)
    ensures s == StateAfter(H, L, ops) && h == HistoryAfter(H, L, ops) && h != []
    ensures Value(h, k) == [] && Get(s, Latest(h), k).0 == Some([])
  {
    RunServes(H, L, ops, loss);
    UnwrittenHasNone(EventsOf(ops), c, k);
    s, h := GetNewest(H, L, ops, k, loss);
  }

  lemma RefusedIsIdle(H: Hash, L: nat, before: seq<TrieRuns.Op>, op: TrieRuns.Op, loss: Loss)
    requires (op.DoPut? || op.DoDelete?) && !Accepted(EventsOf(before + [op]), |before|) && IsRun(H, L, before, loss)
    ensures TrieRuns.Apply(H, L, StateAfter(H, L, before), op) == StateAfter(H, L, before)
  {
    RunServes(H, L, before, loss);
    var es := EventsOf(before + [op]);
    assert es[..|before|] == EventsOf(before) && es[|before|] == EventOf(op);
    AcceptedNext(es);
  }

  /** b is a run that leaves what a leaves. */
  ghost predicate Equals(H: Hash, L: nat, a: seq<TrieRuns.Op>, b: seq<TrieRuns.Op>, loss: Loss) {
    && IsRun(H, L, b, loss) && HistoryAfter(H, L, a) == HistoryAfter(H, L, b)
    && StateAfter(H, L, a) == StateAfter(H, L, b)
  }

  lemma EqualsNext(H: Hash, L: nat, a: seq<TrieRuns.Op>, b: seq<TrieRuns.Op>, op: TrieRuns.Op, loss: Loss)
    requires IsRun(H, L, a + [op], loss)
    ensures IsRun(H, L, a, loss) && (Equals(H, L, a, b, loss) ==> Equals(H, L, a + [op], b + [op], loss))
  {
    RunSnoc(H, L, a, op, loss);
    RunSnoc(H, L, b, op, loss);
  }

  lemma RefusedEquals(H: Hash, L: nat, before: seq<TrieRuns.Op>, op: TrieRuns.Op, loss: Loss)
    requires (op.DoPut? || op.DoDelete?) && !Accepted(EventsOf(before + [op]), |before|)
    requires IsRun(H, L, before + [op], loss)
    ensures Equals(H, L, before + [op], before, loss)
  {
    RunSnoc(H, L, before, op, loss);
    RefusedIsIdle(H, L, before, op, loss);
  }

  /** A put or delete that is outdated, or a put of "", is as if it had not been: whatever
      follows is a run without it, and leaves the same state and history. */
  lemma {:induction false} RefusedLeavesNothing(H: Hash, L: nat, before: seq<TrieRuns.Op>, op: TrieRuns.Op,
                                                more: seq<TrieRuns.Op>, loss: Loss)
    requires (op.DoPut? || op.DoDelete?) && !Accepted(EventsOf(before + [op]), |before|)
    requires IsRun(H, L, before + [op] + more, loss)
    ensures Equals(H, L, before + [op] + more, before + more, loss)
    decreases |more|
  {
    LastApart(before + [op], more);
    LastApart(before, more);
    if more == [] {
      RefusedEquals(H, L, before, op, loss);
    } else {
      var init, last := more[..|more| - 1], more[|more| - 1];
      EqualsNext(H, L, before + [op] + init, before + init, last, loss);
      RefusedLeavesNothing(H, L, before, op, init, loss);
    }
  }

  lemma LastApart<T>(s: seq<T>, t: seq<T>)
    ensures if t == [] then s + t == s else s + t == (s + t[..|t| - 1]) + [t[|t| - 1]]
  {
    if t != [] { assert t == t[..|t| - 1] + [t[|t| - 1]]; }
  }

  /* ---- Runs of the whole store ---- */

  function StoreEventOf(op: S.Op): Event {
    match op
    case Local(o) => EventOf(o)
    case Commit(w, _, _, _) => Commits(w)
    case _ => Passes
  }

  function StoreEventsOf(ops: seq<S.Op>): (es: seq<Event>)
    ensures |es| == |ops| && forall i :: 0 <= i < |ops| ==> es[i] == StoreEventOf(ops[i])
  {
    seq(|ops|, i requires 0 <= i < |ops| => StoreEventOf(ops[i]))
  }

  lemma {:induction false} PoolKeepsCurrent(H: Hash, L: nat, s: State, q: P.Pool, w: nat, plan: seq<Work>,
                                            evict: seq<set<CacheKey>>, hints: seq<Bytes>)
    requires |evict| == |plan| == |hints|
    ensures var s' := PoolCommit(H, L, s, q, w, plan, evict, hints).0; s'.current == s.current && s'.put == s.put
    decreases |plan|
  {
    if plan != [] {
      var (s1, q1) := PoolOne(H, L, s, q, w, plan[0], evict[0], hints[0]);
      PoolKeepsCurrent(H, L, s1, q1, w, plan[1..], evict[1..], hints[1..]);
    }
  }

  lemma Performed(H: Hash, L: nat, x: S.Store, op: S.Op) returns (s: State)
    requires op.Commit? && x.s.put != map[] && |op.evict| == |op.plan| == |op.hints|
    ensures s == S.Perform(H, L, x, op).s && s.put == map[] && s.current == x.s.current
  {
    var s0 := F.LookedUp(x.s, x.t);
    PoolKeepsCurrent(H, L, s0, x.q, op.version, op.plan, op.evict, op.hints);
    s := PoolCommit(H, L, s0, x.q, op.version, op.plan, op.evict, op.hints).0.(put := map[]);
  }

  lemma CommitServes(H: Hash, L: nat, x: S.Store, h: seq<Commit>, op: S.Op, c: Client)
    requires Serves(x.s, h, c) && op.Commit? && (x.s.put != map[] ==> |op.evict| == |op.plan| == |op.hints|)
    ensures Serves(S.Perform(H, L, x, op).s, S.Noted(h, x, op), Act(c, Commits(op.version)))
  {
    if x.s.put != map[] { var s := Performed(H, L, x, op); }
  }

  lemma PerformServes(H: Hash, L: nat, x: S.Store, h: seq<Commit>, op: S.Op, c: Client, loss: R.FileLoss)
    requires Serves(x.s, h, c) && S.Possible(L, x, h, op, loss)
    ensures Serves(S.Perform(H, L, x, op).s, S.Noted(h, x, op), Act(c, StoreEventOf(op)))
  {
    match op
    case Local(o) => ApplyServes(H, L, x.s, h, o, c, loss);
    case Commit(w, plan, evict, hints) => CommitServes(H, L, x, h, op, c);
    case _ =>
  }

  lemma StoreEventsSnoc(ops: seq<S.Op>, op: S.Op)
    ensures ClientAfter(StoreEventsOf(ops + [op])) == Act(ClientAfter(StoreEventsOf(ops)), StoreEventOf(op))
  {
    var es := StoreEventsOf(ops + [op]);
    assert es[..|ops|] == StoreEventsOf(ops) && es[|ops|] == StoreEventOf(op);
  }

  /** The same for runs in which every page is read through table, files, bytes and pool. */
  lemma {:induction false} StoreServes(H: Hash, L: nat, size: nat, ops: seq<S.Op>, loss: R.FileLoss)
    requires S.IsStoreRun(H, L, size, ops, loss)
    ensures Serves(S.StoreAfter(H, L, size, ops).s, S.NotedAfter(H, L, size, ops), ClientAfter(StoreEventsOf(ops)))
    decreases |ops|
  {
    if ops != [] {
      var before, op := ops[..|ops| - 1], ops[|ops| - 1];
      StoreServes(H, L, size, before, loss);
      assert ops == before + [op];
      StoreEventsSnoc(before, op);
      PerformServes(H, L, S.StoreAfter(H, L, size, before), S.NotedAfter(H, L, size, before), op,
                    ClientAfter(StoreEventsOf(before)), loss);
    }
  }

  lemma StoreSnoc(H: Hash, L: nat, size: nat, ops: seq<S.Op>, op: S.Op, loss: R.FileLoss)
    ensures S.IsStoreRun(H, L, size, ops + [op], loss) <==>
            S.IsStoreRun(H, L, size, ops, loss) &&
            S.Possible(L, S.StoreAfter(H, L, size, ops), S.NotedAfter(H, L, size, ops), op, loss)
    ensures S.StoreAfter(H, L, size, ops + [op]) == S.Perform(H, L, S.StoreAfter(H, L, size, ops), op)
    ensures S.NotedAfter(H, L, size, ops + [op]) ==
            S.Noted(S.NotedAfter(H, L, size, ops), S.StoreAfter(H, L, size, ops), op)
  {
    var all := ops + [op];
    assert all[..|all| - 1] == ops && all[|all| - 1] == op;
  }

  lemma StoreRefusedIsIdle(H: Hash, L: nat, size: nat, before: seq<S.Op>, o: TrieRuns.Op, loss: R.FileLoss)
    requires (o.DoPut? || o.DoDelete?) && !Accepted(StoreEventsOf(before + [S.Local(o)]), |before|)
    requires S.IsStoreRun(H, L, size, before, loss)
    ensures var x := S.StoreAfter(H, L, size, before); S.Perform(H, L, x, S.Local(o)) == x
  {
    StoreServes(H, L, size, before, loss);
    var es := StoreEventsOf(before + [S.Local(o)]);
    assert es[..|before|] == StoreEventsOf(before) && es[|before|] == EventOf(o);
    AcceptedNext(es);
  }

  ghost predicate StoreEquals(H: Hash, L: nat, size: nat, a: seq<S.Op>, b: seq<S.Op>, loss: R.FileLoss) {
    && S.IsStoreRun(H, L, size, b, loss) && S.NotedAfter(H, L, size, a) == S.NotedAfter(H, L, size, b)
    && S.StoreAfter(H, L, size, a) == S.StoreAfter(H, L, size, b)
  }

  lemma StoreEqualsNext(H: Hash, L: nat, size: nat, a: seq<S.Op>, b: seq<S.Op>, op: S.Op, loss: R.FileLoss)
    requires S.IsStoreRun(H, L, size, a + [op], loss)
    ensures S.IsStoreRun(H, L, size, a, loss)
    ensures StoreEquals(H, L, size, a, b, loss) ==> StoreEquals(H, L, size, a + [op], b + [op], loss)
  {
    StoreSnoc(H, L, size, a, op, loss);
    StoreSnoc(H, L, size, b, op, loss);
  }

  lemma StoreRefusedEquals(H: Hash, L: nat, size: nat, before: seq<S.Op>, o: TrieRuns.Op, loss: R.FileLoss)
    requires (o.DoPut? || o.DoDelete?) && !Accepted(StoreEventsOf(before + [S.Local(o)]), |before|)
    requires S.IsStoreRun(H, L, size, before + [S.Local(o)], loss)
    ensures StoreEquals(H, L, size, before + [S.Local(o)], before, loss)
  {
    StoreSnoc(H, L, size, before, S.Local(o), loss);
    StoreRefusedIsIdle(H, L, size, before, o, loss);
  }

  /** A refused put or delete is as if it had not been in the whole store, too. */
  lemma {:induction false} StoreRefusedLeavesNothing(H: Hash, L: nat, size: nat, before: seq<S.Op>, o: TrieRuns.Op,
                                                     more: seq<S.Op>, loss: R.FileLoss)
    requires (o.DoPut? || o.DoDelete?) && !Accepted(StoreEventsOf(before + [S.Local(o)]), |before|)
    requires S.IsStoreRun(H, L, size, before + [S.Local(o)] + more, loss)
    ensures StoreEquals(H, L, size, before + [S.Local(o)] + more, before + more, loss)
    decreases |more|
  {
    var with := before + [S.Local(o)];
    LastApart(with, more);
    LastApart(before, more);
    if more == [] {
      StoreRefusedEquals(H, L, size, before, o, loss);
    } else {
      var init, last := more[..|more| - 1], more[|more| - 1];
      StoreEqualsNext(H, L, size, with + init, before + init, last, loss);
      StoreRefusedLeavesNothing(H, L, size, before, o, init, loss);
    }
  }

  lemma StoreGetLastWrite(H: Hash, L: nat, size: nat, ops: seq<S.Op>, c: nat, i: nat, k: Path, loss: R.FileLoss)
    returns (x: S.Store, h: seq<Commit>)
    requires S.IsStoreRun(H, L, size, ops, loss) && |k| == L && LastCommit(StoreEventsOf(ops), c) && i < c
    requires Writes(StoreEventsOf(ops), i, k) && forall j: nat :: i < j < c ==> !Writes(StoreEventsOf(ops), j, k)
    ensures x == S.StoreAfter(H, L, size, ops) && h == S.NotedAfter(H, L, size, ops) && h != []
    ensures Get(F.LookedUp(x.s, x.t), Latest(h), k).0 == Some(FirstLine(Written(StoreEventsOf(ops)[i])))
  {
    StoreServes(H, L, size, ops, loss);
    ValueIsLastWrite(StoreEventsOf(ops), c, i, k);
    assert k in Contents(S.NotedAfter(H, L, size, ops));
    x, h := S.GetNewestThroughFiles(H, L, size, ops, k, loss);
  }
}
