/** A run in which a stale base count makes Get answer wrongly: two commits of one key each,
    and a pool object that held another page's count of 252. */
module StaleRuns {
  import opened Types
  import opened Pages
  import opened Chains
  import opened PageCommits
  import opened ValueLog
  import opened History
  import opened PageSpecs
  import opened TrieState
  import opened TrieInvariant
  import opened TrieRuns
  import opened TrieReads
  import opened TrieTheorems
  import opened TrieSteps
  import opened StaleCounts
  import opened LostRuns

  const FIRST: Path := [0, 0]

  const SECOND: Path := [1, 0]

  /** The root page is given the pool object with the stale count. */
  const RECYCLED: TrieRuns.Op := DoReload(map[[] := STALE_CHAIN])

  lemma OneKeyPairs(k: Path)
    requires |k| == 2
    ensures NibblePairs([k])
  {
    assert Distinct2([k]);
  }

  lemma StaleStart(H: Hash, loss: Loss) returns (s: State, ops: seq<TrieRuns.Op>)
    ensures IsRun(H, 2, ops, loss) && s == StateAfter(H, 2, ops) && HistoryAfter(H, 2, ops) == []
    ensures ops == [RECYCLED] && s == NEW_TRIE.(chains := map[[] := STALE_CHAIN])
  {
    ops := [RECYCLED];
    assert ops == [] + [RECYCLED];
    RunSnoc(H, 2, [], RECYCLED, loss);
    s := StateAfter(H, 2, ops);
  }

  /** The root's share of a commit of one key. */
  lemma RootCommit(H: Hash, s: State, h: seq<Commit>, k: Path, w: nat, loss: Loss)
    returns (p: Page, q: Page, call: Call)
    requires Agrees(H, 2, s, h, loss) && s.put != map[] && |k| == 2
    requires Enabled(2, s, h, CommitKeys([k], w), loss)
    ensures CanOpen(s, [], p) && Shaped(p, 2) && call.nibbles == k && ValidCalls([call], 2)
    ensures (ChainOf(Apply(H, 2, s, CommitKeys([k], w)), []), q) ==
            CommitPage(H, ChainOf(s, []), p, [], w, [call], 2)
  {
    var m := RootStep(H, 2, s, h, CommitKeys([k], w), 1, loss);
    call := RootCall(H, s, w, ChainOf(Apply(H, 2, s, CommitKeys([k], w)), []), m, k);
    p, q := m.p, m.q;
  }

  lemma RootCall(H: Hash, s: State, w: nat, c: Chain, m: Move, k: Path) returns (call: Call)
    requires m.work == Work([], [k]) && BroughtTo(H, 2, s, w, c, m)
    ensures CanOpen(s, [], m.p) && Shaped(m.p, 2) && call.nibbles == k && ValidCalls([call], 2)
    ensures (c, m.q) == CommitPage(H, ChainOf(s, []), m.p, [], w, [call], 2)
  {
    call := m.calls[0];
    assert m.calls == [call] && Kind(2, []) == 2;
  }

  lemma StaleOpens(s: State, p: Page)
    requires ChainOf(s, []) == STALE_CHAIN && s.cache == map[] && CanOpen(s, [], p)
    ensures p == EMPTY_PAGE
  {
    assert Start(STALE_CHAIN, s.current, 0) == ([], NO_PAGE);
    assert [] + [] + [STALE_CHAIN.active] == [STALE_CHAIN.active];
    assert [STALE_CHAIN.active][1..] == [];
    assert ReplayDeltas(EMPTY_PAGE, [STALE_CHAIN.active], 0) == ReplayDeltas(EMPTY_PAGE, [], 0);
  }

  /** After the first commit. */
  lemma FirstStale(H: Hash, a: Bytes, loss: Loss) returns (s: State, ops: seq<TrieRuns.Op>, old1: seq<Item>)
    requires a != [] && !loss.Slotless?
    ensures IsRun(H, 2, ops, loss) && s == StateAfter(H, 2, ops) && OneRound(HistoryAfter(H, 2, ops), [FIRST], a)
    ensures s.put == map[] && s.current == 1 && OneCommit(ChainOf(s, []), old1)
  {
    var start, first := StaleStart(H, loss);
    OneKeyPairs(FIRST);
    var s0, s1, h, all := Round(H, first, [FIRST], 1, a, loss);
    var p, q, call := RootCommit(H, s1, h, FIRST, 1, loss);
    StaleOpens(s1, p);
    var c, p1;
    c, p1, old1 := FirstCommit(H, call);
    AfterCommit(H, s1, CommitKeys([FIRST], 1));
    KeepsCurrent(H, s1, h, FIRST, 1, loss);
    s, ops := StateAfter(H, 2, all), all;
  }

  lemma KeepsCurrent(H: Hash, s: State, h: seq<Commit>, k: Path, w: nat, loss: Loss)
    requires Agrees(H, 2, s, h, loss) && s.put != map[] && |k| == 2
    requires Enabled(2, s, h, CommitKeys([k], w), loss)
    ensures Apply(H, 2, s, CommitKeys([k], w)).current == s.current
  {
    var m := RootStep(H, 2, s, h, CommitKeys([k], w), 1, loss);
  }

  /** The root after the second commit: its chain, and no page of version 1 in the cache. */
  ghost predicate Stale(s: State, q: Page, old1: seq<Item>, new2: seq<Item>) {
    && TwoCommits(ChainOf(s, []), q, old1, new2) && 1 in q.kids && KidSlot(q, 1, 0).version == 2
    && CacheKey(1, []) !in s.cache && s.current == 2
  }

  lemma RootIsStale(H: Hash, s: State, h: seq<Commit>, old1: seq<Item>, loss: Loss) returns (q: Page, new2: seq<Item>)
    requires Agrees(H, 2, s, h, loss) && s.put != map[] && s.current == 2
    requires Enabled(2, s, h, CommitKeys([SECOND], 2), loss) && OneCommit(ChainOf(s, []), old1)
    ensures Stale(Apply(H, 2, s, CommitKeys([SECOND], 2)), q, old1, new2)
  {
    var op := CommitKeys([SECOND], 2);
    var p, r, call := RootCommit(H, s, h, SECOND, 2, loss);
    var c;
    c, q, new2 := SecondCommit(H, ChainOf(s, []), p, call, old1);
    KeepsCurrent(H, s, h, SECOND, 2, loss);
    OldRootGone(H, 2, s, op, 1);
  }

  lemma SecondStale(H: Hash, first: seq<TrieRuns.Op>, s1: State, a: Bytes, b: Bytes, old1: seq<Item>, loss: Loss)
    returns (s: State, ops: seq<TrieRuns.Op>, q: Page, new2: seq<Item>)
    requires b != [] && !loss.Slotless? && IsRun(H, 2, first, loss) && s1 == StateAfter(H, 2, first)
    requires OneRound(HistoryAfter(H, 2, first), [FIRST], a)
    requires s1.put == map[] && s1.current == 1 && OneCommit(ChainOf(s1, []), old1)
    ensures IsRun(H, 2, ops, loss) && s == StateAfter(H, 2, ops) && Stale(s, q, old1, new2)
    ensures HistoryAfter(H, 2, ops) == HistoryAfter(H, 2, first) + [Commit(2, Batch([SECOND], b))]
  {
    OneKeyPairs(SECOND);
    var s0, s2, h, all := Round(H, first, [SECOND], 2, b, loss);
    q, new2 := RootIsStale(H, s2, h, old1, loss);
    s, ops := StateAfter(H, 2, all), all;
  }

  /** The descent at version 1 passes through the stale root to the leaf of version 2. */
  lemma StaleDescent(H: Hash, s: State, q: Page, old1: seq<Item>, new2: seq<Item>) returns (s1: State)
    requires Stale(s, q, old1, new2)
    requires |old1| == 2 && old1[0].version == old1[1].version == 1 && old1[0].location == 1 && old1[1].location == 0
    ensures s1 == GetPage(s, 1, []).1 && (GetPage(s1, 2, SECOND).0.Found? ==>
              var (l, s2) := GetPage(s1, 2, SECOND);
              l.p.root.Some? && l.p.root.value.Leaf? ==>
                Get(s, 1, SECOND).0 == Some(ReadValue(s2.log, l.p.root.value.loc)))
  {
    OldItemsOverNewPage(ChainOf(s, []), q, old1, new2);
    s1 := GetPage(s, 1, []).1;
    var p := LoadPage(ChainOf(s, []), 2, 1).p;
    assert SECOND[..0] == [] && SECOND[..2] == SECOND;
    assert GetPage(s, 1, []) == (Found(p), s1);
    assert p.kids[1] == q.kids[1] && SlotVersion(q.kids[1].slots, 0) == 2;
  }

  /** The leaf page of the second key, at version 2. */
  lemma SecondLeaf(H: Hash, s: State, h: seq<Commit>, b: Bytes, loss: Loss)
    requires Agrees(H, 2, s, h, loss) && h != [] && h[|h| - 1] == Commit(2, Batch([SECOND], b))
    ensures var (l, s2) := GetPage(s, 2, SECOND);
            l.Found? && l.p.root.Some? && l.p.root.value.Leaf? &&
            ReadValue(s2.log, l.p.root.value.loc) == FirstLine(b)
  {
    var g: Snaps :| TrieInv(H, 2, s, g, h, loss);
    NewestRecoverable(H, 2, s, h, 2, SECOND, loss);
    assert SECOND[..2] == SECOND;
    UptoAll(h, 2);
    SecondTouched(h, b);
    PathStep(H, 2, s, g, h, 2, SECOND, 2, loss);
    ChainsKept(s, 2, SECOND);
  }

  lemma SecondTouched(h: seq<Commit>, b: Bytes)
    requires h != [] && h[|h| - 1] == Commit(2, Batch([SECOND], b))
    ensures LastTouch(h, SECOND) == 2 && SECOND in Contents(h) && Contents(h)[SECOND] == b
  {
    assert SECOND in Batch([SECOND], b) && SECOND <= SECOND;
  }

  /** What the run leaves: the second key was not there at version 1. */
  lemma StaleValues(h: seq<Commit>, a: Bytes, b: Bytes)
    requires |h| == 2 && h[0] == Commit(1, Batch([FIRST], a)) && h[1] == Commit(2, Batch([SECOND], b))
    ensures Value(Upto(h, 1), SECOND) == []
  {
    assert h[..1][..0] == [];
    assert Upto(h, 1) == Upto(h[..1], 1) == h[..1];
    assert Contents(h[..1]) == Contents([]) + Batch([FIRST], a);
    assert FIRST[0] != SECOND[0];
  }

  lemma StaleGet(H: Hash, s: State, h: seq<Commit>, q: Page, old1: seq<Item>, new2: seq<Item>, b: Bytes, loss: Loss)
    requires Agrees(H, 2, s, h, loss) && h != [] && h[|h| - 1] == Commit(2, Batch([SECOND], b))
    requires Stale(s, q, old1, new2)
    requires |old1| == 2 && old1[0].version == old1[1].version == 1 && old1[0].location == 1 && old1[1].location == 0
    ensures Get(s, 1, SECOND).0 == Some(FirstLine(b))
  {
    var s1 := StaleDescent(H, s, q, old1, new2);
    var g: Snaps :| TrieInv(H, 2, s, g, h, loss);
    GetPageKeeps(H, 2, s, g, h, 1, [], loss);
    SecondLeaf(H, s1, h, b, loss);
  }

  /** One key committed at version 1, another at version 2: afterwards a read of the second
      key at version 1, where it did not exist, answers its value. */
  lemma StaleInRun(H: Hash, a: Bytes, b: Bytes, loss: Loss) returns (ops: seq<TrieRuns.Op>, s: State, h: seq<Commit>)
    requires a != [] && b != [] && !loss.Slotless?
    ensures IsRun(H, 2, ops, loss) && s == StateAfter(H, 2, ops) && h == HistoryAfter(H, 2, ops)
    ensures h == [Commit(1, Batch([FIRST], a)), Commit(2, Batch([SECOND], b))]
    ensures Value(Upto(h, 1), SECOND) == [] && Get(s, 1, SECOND).0 == Some(FirstLine(b))
  {
    var s1, first, old1 := FirstStale(H, a, loss);
    var q, new2;
    s, ops, q, new2 := SecondStale(H, first, s1, a, b, old1, loss);
    h := HistoryAfter(H, 2, ops);
    assert h == [Commit(1, Batch([FIRST], a)), Commit(2, Batch([SECOND], b))];
    StaleValues(h, a, b);
    RunAgrees(H, 2, ops, loss);
    StaleGet(H, s, h, q, old1, new2, b, loss);
  }
}
