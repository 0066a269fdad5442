/** Runs that lose a version: a commit of 128 or more pieces of the root page over an empty
    active delta page makes the version before it read as the new one, for every key; and a
    run of puts and two commits that does this. */
module LostRuns {
  import opened Types
  import opened Pages
  import opened Loads
  import opened Lost
  import opened LostReads
  import opened ValueLog
  import opened History
  import opened PageSpecs
  import opened TrieState
  import opened TrieInvariant
  import opened TrieCommit
  import opened TrieRuns
  import opened TrieReads
  import opened TrieTheorems
  import opened TrieSteps
  import opened TriePool

  /** The root page has its share of the plan: its chain before and after. */
  lemma RootStep(H: Hash, L: nat, s: State, h: seq<Commit>, op: Op, x: nat, loss: Loss) returns (m: Move)
    requires Agrees(H, L, s, h, loss) && Enabled(L, s, h, op, loss) && op.DoCommit? && s.put != map[]
    requires x < |op.plan| && op.plan[x].pid == []
    ensures m.work == op.plan[x] && BroughtTo(H, L, s, op.version, ChainOf(Apply(H, L, s, op), []), m)
    ensures Apply(H, L, s, op).current == s.current
  {
    var moves := CommitMoves(H, L, s, h, op, loss);
    m := moves[[]];
    assert ChainMoved(H, L, s, Apply(H, L, s, op), op.version, moves, [], loss);
    assert Brought(H, L, s, op.version, ChainOf(Apply(H, L, s, op), []), m);
  }

  /** The root's chain after an oversize commit over an empty active delta page. */
  lemma OversizeRoot(H: Hash, L: nat, s: State, h: seq<Commit>, op: Op, x: nat, loss: Loss)
    requires Agrees(H, L, s, h, loss) && Enabled(L, s, h, op, loss) && op.DoCommit? && s.put != map[]
    requires x < |op.plan| && op.plan[x].pid == [] && |op.plan[x].nibs| >= TD && ChainOf(s, []).active.count == 0
    ensures var c, s' := ChainOf(s, []), Apply(H, L, s, op);
            RootLost(ChainOf(s', []), c.cur, op.version) && ChainOf(s', []).active.count == 0 &&
            ChainOf(s', []) != c && s'.current == s.current
  {
    var c := ChainOf(s, []);
    var m := RootStep(H, L, s, h, op, x, loss);
    OversizeCommit(H, c, m.p, [], op.version, m.calls, Kind(L, []));
    FirstAboveIs(c.frozen, c.cur);
  }

  /** The root page comes last. */
  lemma RootIteration(H: Hash, L: nat, s: State, w: nat, plan: seq<Work>, evict: seq<set<CacheKey>>, x: nat)
    returns (s1: State)
    requires |evict| == |plan| && IsPlan(L, s.put, plan) && x < |plan| && plan[x].pid == []
    ensures ChainOf(s1, []) == ChainOf(s, [])
    ensures CommitAll(H, L, s, w, plan, evict) == CommitOne(H, L, s1, w, plan[x].pid, plan[x].nibs)
  {
    RootIsLast(L, s.put, plan, x);
    CommitAllSnoc(H, L, s, w, plan, evict, x);
    assert plan[..x + 1] == plan && evict[..x + 1] == evict;
    PlanKeepsOthers(H, L, s, w, plan[..x], evict[..x], []);
    s1 := Evict(CommitAll(H, L, s, w, plan[..x], evict[..x]), evict[x], w);
  }

  /** And then is no longer cached under its old version. */
  lemma OldRootGone(H: Hash, L: nat, s: State, op: Op, x: nat)
    requires op.DoCommit? && |op.evict| == |op.plan| && s.put != map[] && IsPlan(L, s.put, op.plan)
    requires x < |op.plan| && op.plan[x].pid == [] && ChainOf(Apply(H, L, s, op), []) != ChainOf(s, [])
    requires ChainOf(s, []).cur != op.version
    ensures CacheKey(ChainOf(s, []).cur, []) !in Apply(H, L, s, op).cache
  {
    var s1 := RootIteration(H, L, s, op.version, op.plan, op.evict, x);
  }

  lemma LaterDiffers(L: nat, batch: map<Path, Bytes>, plan: seq<Work>, x: nat, y: nat)
    requires IsPlan(L, batch, plan) && x < y < |plan|
    ensures plan[x].pid != plan[y].pid && |plan[x].pid| >= |plan[y].pid|
  {
  }

  lemma RootIsLast(L: nat, batch: map<Path, Bytes>, plan: seq<Work>, x: nat)
    requires IsPlan(L, batch, plan) && x < |plan| && plan[x].pid == []
    ensures x == |plan| - 1 && forall y :: 0 <= y < x ==> plan[..x][y].pid != []
  {
    if x + 1 < |plan| { LaterDiffers(L, batch, plan, x, x + 1); }
  }

  lemma RootCur(H: Hash, L: nat, s: State, h: seq<Commit>, loss: Loss)
    requires Agrees(H, L, s, h, loss) && h != []
    ensures ChainOf(s, []).cur == Latest(h)
  {
    var g: Snaps :| TrieInv(H, L, s, g, h, loss);
    assert PageInv(H, L, s, g, h, [], loss);
    var v := Latest(h);
    assert Committed(h, v);
    RootTouched(h, L, v);
    UptoAll(h, v);
  }

  /** After such a commit a read of the version before it answers the newest value of every
      key. */
  lemma LostByCommit(H: Hash, L: nat, s: State, h: seq<Commit>, op: Op, x: nat, k: Path, loss: Loss)
    requires Agrees(H, L, s, h, loss) && Enabled(L, s, h, op, loss) && op.DoCommit? && s.put != map[]
    requires x < |op.plan| && op.plan[x].pid == [] && |op.plan[x].nibs| >= TD && ChainOf(s, []).active.count == 0
    requires h != [] && op.version <= s.current && |k| == L
    ensures Get(Apply(H, L, s, op), Latest(h), k).0 == Some(FirstLine(Value(Recorded(h, s, op), k)))
  {
    var s', h' := Apply(H, L, s, op), Recorded(h, s, op);
    RootCur(H, L, s, h, loss);
    OversizeRoot(H, L, s, h, op, x, loss);
    OldRootGone(H, L, s, op, x);
    TrieRuns.ApplyKeeps(H, L, s, h, op, loss);
    LostGetIsNewest(H, L, s', h', Latest(h), k, loss);
  }

  /* ---- A run ---- */

  /** Distinct keys of two nibbles. */
  ghost predicate Distinct2(keys: seq<Path>) {
    keys != [] && (forall x :: 0 <= x < |keys| ==> |keys[x]| == 2) &&
    forall x, y :: 0 <= x < y < |keys| ==> keys[x] != keys[y]
  }

  /** The quantifier keeps the definition out of the way until it is mentioned. */
  ghost predicate NibblePairs(keys: seq<Path>) {
    forall t: seq<Path> :: t == keys ==> Distinct2(t)
  }

  function Batch(keys: seq<Path>, value: Bytes): map<Path, Bytes> {
    map k | k in keys :: value
  }

  /** A leaf page for each key, and then the root. */
  function KeysPlan(keys: seq<Path>): (plan: seq<Work>)
    ensures |plan| == |keys| + 1
    ensures forall x :: 0 <= x < |keys| ==> plan[x] == Work(keys[x], [[]])
    ensures plan[|keys|] == Work([], keys)
  {
    seq(|keys|, x requires 0 <= x < |keys| => Work(keys[x], [[]])) + [Work([], keys)]
  }

  function NoEvictions(n: nat): seq<set<CacheKey>> { seq(n, _ => {}) }

  function CommitKeys(keys: seq<Path>, version: nat): Op {
    DoCommit(version, KeysPlan(keys), NoEvictions(|keys| + 1))
  }

  lemma TouchesTwo(keys: seq<Path>, value: Bytes, p: Path)
    requires forall x :: 0 <= x < |keys| ==> |keys[x]| == 2
    ensures |p| == 2 ==> (Touches(Batch(keys, value), p) <==> p in keys)
    ensures keys != [] ==> Touches(Batch(keys, value), [])
  {
    if |p| == 2 {
      if Touches(Batch(keys, value), p) {
        var k :| k in Batch(keys, value) && p <= k;
        assert k == p;
      }
      if p in keys { assert p in Batch(keys, value) && p <= p; }
    }
    if keys != [] { assert keys[0] in Batch(keys, value) && [] <= keys[0]; }
  }

  lemma LeafWork(keys: seq<Path>, value: Bytes, k: Path)
    requires NibblePairs(keys) && k in keys
    ensures WorkFor(2, Batch(keys, value), Work(k, [[]]))
  {
    assert Distinct2(keys);
    TouchesTwo(keys, value, k);
    assert k + [] == k;
    assert forall nibs: Path :: |nibs| == 0 ==> nibs == [] && nibs in [[]];
  }

  lemma RootPiece(keys: seq<Path>, value: Bytes, nibs: Path)
    requires NibblePairs(keys) && |nibs| == 2
    ensures nibs in keys <==> Touches(Batch(keys, value), [] + nibs)
  {
    assert Distinct2(keys);
    assert [] + nibs == nibs;
    TouchesTwo(keys, value, nibs);
  }

  /** The pieces of the root page, whatever the batch. */
  lemma RootWorkOf(keys: seq<Path>, batch: map<Path, Bytes>)
    requires Touches(batch, []) && forall nibs: Path :: |nibs| == 2 ==> (nibs in keys <==> Touches(batch, [] + nibs))
    requires forall x :: 0 <= x < |keys| ==> |keys[x]| == 2
    requires forall x, y :: 0 <= x < y < |keys| ==> keys[x] != keys[y]
    ensures WorkFor(2, batch, Work([], keys))
  {
  }

  lemma RootWork(keys: seq<Path>, value: Bytes)
    requires NibblePairs(keys)
    ensures WorkFor(2, Batch(keys, value), Work([], keys))
  {
    assert Distinct2(keys);
    TouchesTwo(keys, value, []);
    forall nibs: Path | |nibs| == 2 ensures nibs in keys <==> Touches(Batch(keys, value), [] + nibs) {
      RootPiece(keys, value, nibs);
    }
    RootWorkOf(keys, Batch(keys, value));
  }

  ghost predicate AllWork(batch: map<Path, Bytes>, plan: seq<Work>) {
    forall x :: 0 <= x < |plan| ==> WorkFor(2, batch, plan[x])
  }

  predicate LongFirst(plan: seq<Work>) {
    forall x, y :: 0 <= x < y < |plan| ==> plan[x].pid != plan[y].pid && |plan[x].pid| >= |plan[y].pid|
  }

  ghost predicate AllPlanned(batch: map<Path, Bytes>, plan: seq<Work>) {
    forall pid :: PageId(2, pid) && Touches(batch, pid) ==> Planned(plan, pid)
  }

  lemma PlanOrdered(keys: seq<Path>)
    requires NibblePairs(keys)
    ensures LongFirst(KeysPlan(keys))
  {
    assert Distinct2(keys);
  }

  lemma KeyPlanned(keys: seq<Path>, value: Bytes, pid: Path)
    requires NibblePairs(keys) && PageId(2, pid) && Touches(Batch(keys, value), pid)
    ensures Planned(KeysPlan(keys), pid)
  {
    assert Distinct2(keys);
    var plan := KeysPlan(keys);
    if |pid| == 2 {
      TouchesTwo(keys, value, pid);
      var x :| 0 <= x < |keys| && keys[x] == pid;
      assert plan[x].pid == pid;
    } else {
      assert pid == [] && plan[|keys|].pid == pid;
    }
  }

  lemma KeysPlanned(keys: seq<Path>, value: Bytes)
    requires NibblePairs(keys)
    ensures AllPlanned(Batch(keys, value), KeysPlan(keys))
  {
    forall pid | PageId(2, pid) && Touches(Batch(keys, value), pid) ensures Planned(KeysPlan(keys), pid) {
      KeyPlanned(keys, value, pid);
    }
  }

  lemma PlanWorks(keys: seq<Path>, value: Bytes, x: nat)
    requires NibblePairs(keys) && x <= |keys|
    ensures WorkFor(2, Batch(keys, value), KeysPlan(keys)[x])
  {
    assert Distinct2(keys);
    if x < |keys| { LeafWork(keys, value, keys[x]); } else { RootWork(keys, value); }
  }

  lemma KeysWork(keys: seq<Path>, value: Bytes)
    requires NibblePairs(keys)
    ensures AllWork(Batch(keys, value), KeysPlan(keys))
  {
    assert Distinct2(keys);
    forall x | 0 <= x < |KeysPlan(keys)| ensures WorkFor(2, Batch(keys, value), KeysPlan(keys)[x]) {
      PlanWorks(keys, value, x);
    }
  }

  lemma KeysPlanIs(keys: seq<Path>, value: Bytes)
    requires NibblePairs(keys)
    ensures IsPlan(2, Batch(keys, value), KeysPlan(keys))
  {
    PlanOrdered(keys);
    KeysWork(keys, value);
    KeysPlanned(keys, value);
  }

  /** Puts at one version buffer their keys and do nothing else. */
  lemma {:induction false} PutsBuffer(H: Hash, ops: seq<Op>, keys: seq<Path>, version: nat, value: Bytes, loss: Loss)
    returns (s0: State, s: State, all: seq<Op>)
    requires IsRun(H, 2, ops, loss) && value != [] && StateAfter(H, 2, ops).current <= version
    requires forall x :: 0 <= x < |keys| ==> |keys[x]| == 2
    ensures s0 == StateAfter(H, 2, ops) && s == StateAfter(H, 2, all)
    ensures IsRun(H, 2, all, loss) && HistoryAfter(H, 2, all) == HistoryAfter(H, 2, ops)
    ensures if keys == [] then s == s0 else s == s0.(current := version, put := s0.put + Batch(keys, value))
    decreases |keys|
  {
    if keys == [] {
      s0, s, all := StateAfter(H, 2, ops), StateAfter(H, 2, ops), ops;
    } else {
      var n, op := |keys| - 1, DoPut(version, keys[|keys| - 1], value);
      var s1, before;
      s0, s1, before := PutsBuffer(H, ops, keys[..n], version, value, loss);
      RunSnoc(H, 2, before, op, loss);
      all := before + [op];
      s := StateAfter(H, 2, all);
      PutsOne(s0, s1, keys, version, value);
    }
  }

  lemma BatchSnoc(keys: seq<Path>, put: map<Path, Bytes>, value: Bytes)
    requires keys != []
    ensures var n := |keys| - 1;
            (put + Batch(keys[..n], value))[keys[n] := value] == put + Batch(keys, value)
  {
    var n := |keys| - 1;
    assert keys == keys[..n] + [keys[n]];
  }

  lemma PutsOne(s: State, s1: State, keys: seq<Path>, version: nat, value: Bytes)
    requires keys != [] && value != [] && s.current <= version
    requires var n := |keys| - 1;
             if keys[..n] == [] then s1 == s else s1 == s.(current := version, put := s.put + Batch(keys[..n], value))
    ensures Put(s1, version, keys[|keys| - 1], value) == s.(current := version, put := s.put + Batch(keys, value))
  {
    var n := |keys| - 1;
    BatchSnoc(keys, s.put, value);
    if n == 0 { assert s.put + Batch(keys[..n], value) == s.put; }
  }

  lemma CommitEnabled(L: nat, s: State, h: seq<Commit>, w: nat, plan: seq<Work>, evict: seq<set<CacheKey>>, loss: Loss)
    requires Latest(h) < w && IsPlan(L, s.put, plan) && |evict| == |plan|
    requires !loss.Slotless?
    ensures Enabled(L, s, h, DoCommit(w, plan, evict), loss)
  {
  }

  lemma BatchNonempty(keys: seq<Path>, value: Bytes)
    requires keys != []
    ensures Batch(keys, value) != map[]
  {
    assert keys[0] in Batch(keys, value);
  }

  /** The state with all keys put is ready for their commit. */
  lemma ReadyToCommit(s: State, h: seq<Commit>, keys: seq<Path>, version: nat, value: Bytes, loss: Loss)
    requires s.put == Batch(keys, value) && NibblePairs(keys) && version > 0 && !loss.Slotless?
    requires Latest(h) < version
    ensures Enabled(2, s, h, CommitKeys(keys, version), loss) && s.put != map[]
  {
    KeysPlanIs(keys, value);
    CommitEnabled(2, s, h, version, KeysPlan(keys), NoEvictions(|keys| + 1), loss);
    assert Distinct2(keys);
    BatchNonempty(keys, value);
  }

  /** All keys put. */
  lemma RoundOfPuts(H: Hash, ops: seq<Op>, keys: seq<Path>, version: nat, value: Bytes, loss: Loss)
    returns (s0: State, s: State, puts: seq<Op>)
    requires IsRun(H, 2, ops, loss) && value != [] && StateAfter(H, 2, ops).current <= version && NibblePairs(keys)
    requires StateAfter(H, 2, ops).put == map[]
    ensures s0 == StateAfter(H, 2, ops) && s == s0.(current := version, put := Batch(keys, value))
    ensures IsRun(H, 2, puts, loss) && StateAfter(H, 2, puts) == s &&
            HistoryAfter(H, 2, puts) == HistoryAfter(H, 2, ops)
  {
    assert Distinct2(keys);
    s0, s, puts := PutsBuffer(H, ops, keys, version, value, loss);
    assert map[] + Batch(keys, value) == Batch(keys, value);
  }

  /** Putting all keys and committing them. */
  lemma Round(H: Hash, ops: seq<Op>, keys: seq<Path>, version: nat, value: Bytes, loss: Loss)
    returns (s0: State, s: State, h: seq<Commit>, all: seq<Op>)
    requires IsRun(H, 2, ops, loss) && value != [] && StateAfter(H, 2, ops).current <= version && NibblePairs(keys)
    requires StateAfter(H, 2, ops).put == map[] && version > 0 && !loss.Slotless?
    requires Latest(HistoryAfter(H, 2, ops)) < version
    ensures s0 == StateAfter(H, 2, ops) && h == HistoryAfter(H, 2, ops)
    ensures s == s0.(current := version, put := Batch(keys, value)) && Agrees(H, 2, s, h, loss)
    ensures Enabled(2, s, h, CommitKeys(keys, version), loss) && s.put != map[]
    ensures IsRun(H, 2, all, loss) && StateAfter(H, 2, all) == Apply(H, 2, s, CommitKeys(keys, version))
    ensures HistoryAfter(H, 2, all) == h + [Commit(version, Batch(keys, value))]
  {
    var puts;
    s0, s, puts := RoundOfPuts(H, ops, keys, version, value, loss);
    h := HistoryAfter(H, 2, ops);
    RunAgrees(H, 2, puts, loss);
    ReadyToCommit(s, h, keys, version, value, loss);
    RunSnoc(H, 2, puts, CommitKeys(keys, version), loss);
    all := puts + [CommitKeys(keys, version)];
  }

  lemma AfterCommit(H: Hash, s: State, op: Op)
    requires op.DoCommit? && |op.evict| == |op.plan| && s.put != map[]
    ensures Apply(H, 2, s, op).put == map[]
  {
  }

  ghost predicate OneRound(h: seq<Commit>, keys: seq<Path>, a: Bytes) {
    |h| == 1 && h[0] == Commit(1, Batch(keys, a))
  }

  /** The first round: 128 or more keys over an empty trie. */
  lemma FirstRound(H: Hash, keys: seq<Path>, a: Bytes, loss: Loss) returns (s: State, ops: seq<Op>)
    requires NibblePairs(keys) && |keys| >= TD && a != [] && !loss.Slotless?
    ensures IsRun(H, 2, ops, loss) && s == StateAfter(H, 2, ops) && OneRound(HistoryAfter(H, 2, ops), keys, a)
    ensures s.put == map[] && s.current == 1 && ChainOf(s, []).active.count == 0
  {
    assert Distinct2(keys);
    var s0, s1, h, all := Round(H, [], keys, 1, a, loss);
    OversizeRoot(H, 2, s1, h, CommitKeys(keys, 1), |keys|, loss);
    AfterCommit(H, s1, CommitKeys(keys, 1));
    s, ops := StateAfter(H, 2, all), all;
  }

  lemma SecondRead(H: Hash, s: State, h: seq<Commit>, keys: seq<Path>, b: Bytes, k: Path, loss: Loss)
    requires NibblePairs(keys) && |keys| >= TD && |k| == 2
    requires s.put == Batch(keys, b) && s.put != map[] && s.current == 2
    requires Agrees(H, 2, s, h, loss) && h != [] && Latest(h) == 1 && ChainOf(s, []).active.count == 0
    requires Enabled(2, s, h, CommitKeys(keys, 2), loss) && Value(h + [Commit(2, Batch(keys, b))], k) == b
    ensures Get(Apply(H, 2, s, CommitKeys(keys, 2)), 1, k).0 == Some(FirstLine(b))
  {
    assert Distinct2(keys);
    LostByCommit(H, 2, s, h, CommitKeys(keys, 2), |keys|, k, loss);
  }

  /** The values of the two rounds. */
  ghost predicate TwoRounds(h: seq<Commit>, keys: seq<Path>, a: Bytes, b: Bytes) {
    |h| == 2 && h[0] == Commit(1, Batch(keys, a)) && h[1] == Commit(2, Batch(keys, b))
  }

  lemma ValuesThen(h: seq<Commit>, keys: seq<Path>, a: Bytes, b: Bytes, k: Path)
    requires TwoRounds(h, keys, a, b) && k in keys
    ensures Value(Upto(h, 1), k) == a && Value(h, k) == b
  {
    assert h[..1][..0] == [];
    assert Upto(h, 1) == Upto(h[..1], 1) == h[..1];
    assert Contents(h[..1]) == Contents([]) + Batch(keys, a);
    assert Contents(h) == Contents(h[..1]) + Batch(keys, b);
  }

  /** What is read of version 1 after the second commit, and what should be. */
  lemma LostValues(H: Hash, s: State, h1: seq<Commit>, keys: seq<Path>, a: Bytes, b: Bytes, k: Path, loss: Loss)
    requires NibblePairs(keys) && |keys| >= TD && k in keys
    requires s.put == Batch(keys, b) && s.put != map[] && s.current == 2
    requires Agrees(H, 2, s, h1, loss) && OneRound(h1, keys, a) && ChainOf(s, []).active.count == 0
    requires Enabled(2, s, h1, CommitKeys(keys, 2), loss)
    ensures var h := h1 + [Commit(2, Batch(keys, b))];
            TwoRounds(h, keys, a, b) && Value(Upto(h, 1), k) == a &&
            Get(Apply(H, 2, s, CommitKeys(keys, 2)), 1, k).0 == Some(FirstLine(b))
  {
    ValuesThen(h1 + [Commit(2, Batch(keys, b))], keys, a, b, k);
    assert Distinct2(keys);
    SecondRead(H, s, h1, keys, b, k, loss);
  }

  lemma SecondRound(H: Hash, first: seq<Op>, s1: State, h1: seq<Commit>, keys: seq<Path>, a: Bytes, b: Bytes,
                    loss: Loss)
    returns (s2: State, ops: seq<Op>)
    requires NibblePairs(keys) && b != [] && IsRun(H, 2, first, loss) && !loss.Slotless?
    requires s1 == StateAfter(H, 2, first) && h1 == HistoryAfter(H, 2, first) && s1.put == map[] && s1.current == 1
    requires OneRound(h1, keys, a)
    ensures s2 == s1.(current := 2, put := Batch(keys, b)) && Agrees(H, 2, s2, h1, loss)
    ensures Enabled(2, s2, h1, CommitKeys(keys, 2), loss) && s2.put != map[]
    ensures IsRun(H, 2, ops, loss) && StateAfter(H, 2, ops) == Apply(H, 2, s2, CommitKeys(keys, 2))
    ensures HistoryAfter(H, 2, ops) == h1 + [Commit(2, Batch(keys, b))]
  {
    var s0, h;
    s0, s2, h, ops := Round(H, first, keys, 2, b, loss);
  }

  /** 128 keys put and committed at version 1, then again at version 2: afterwards a read of
      version 1 answers the values of version 2. */
  lemma LostInRun(H: Hash, keys: seq<Path>, a: Bytes, b: Bytes, k: Path, loss: Loss)
    returns (ops: seq<Op>, s: State, h: seq<Commit>)
    requires NibblePairs(keys) && |keys| >= TD && a != [] && b != [] && k in keys && !loss.Slotless?
    ensures IsRun(H, 2, ops, loss) && s == StateAfter(H, 2, ops) && h == HistoryAfter(H, 2, ops)
    ensures TwoRounds(h, keys, a, b) && Value(Upto(h, 1), k) == a && Get(s, 1, k).0 == Some(FirstLine(b))
  {
    var s1, first := FirstRound(H, keys, a, loss);
    var h1 := HistoryAfter(H, 2, first);
    var s2;
    s2, ops := SecondRound(H, first, s1, h1, keys, a, b, loss);
    h, s := h1 + [Commit(2, Batch(keys, b))], StateAfter(H, 2, ops);
    LostValues(H, s2, h1, keys, a, b, k, loss);
  }
}
