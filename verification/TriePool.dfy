/** The active delta pages of the trie in the pool. Each iteration of a commit takes the
    page's active delta page from the pool and stores it there again. What the pool hands
    out, whatever it evicted in between, is as good as what was stored: a commit on it is a
    commit of the trie after a reload of some active delta pages. */
module TriePool {
  import opened Types
  import opened Pages
  import opened Chains
  import opened PageCommits
  import opened DeltaCodec
  import opened PageSpecs
  import opened ValueLog
  import opened TrieState
  import opened TrieRuns
  import P = DeltaPool

  /* ---- The pool on its own ---- */

  /** A base count left in a recycled object is another page's, and so below TB. */
  ghost predicate Bounded(q: P.Pool) {
    forall x :: 0 <= x < |q.pages| ==> q.pages[x].bcount < TB
  }

  ghost predicate PoolSound(q: P.Pool, last: map<Bytes, DeltaPage>) {
    P.Inv(q, last) && Bounded(q)
  }

  /** The quantifier keeps the definition out of the way until it is mentioned. */
  ghost predicate PoolOK(q: P.Pool, last: map<Bytes, DeltaPage>) {
    forall t: P.Pool :: t == q ==> PoolSound(t, last)
  }

  lemma NewPoolOK(size: nat)
    requires size > 0
    ensures PoolOK(P.NewPool(size), map[])
  {
    P.NewPoolInv(size);
    assert PoolSound(P.NewPool(size), map[]);
  }

  /** What the pool may hand out for a page. */
  ghost predicate FromPool(d: DeltaPage, from: DeltaPage) {
    P.Settled(d, from) && d.bcount < TB
  }

  /** Which page a full pool gives up: the one hinted at, if it is there. */
  ghost function Choose(q: P.Pool, hint: Bytes): (victim: Bytes)
    ensures q.cache != map[] ==> victim in q.cache
  {
    if hint in q.cache || q.cache == map[] then hint else var p :| p in q.cache; p
  }

  lemma FillBounded(q: P.Pool, pid: Bytes)
    requires Bounded(q) && q.free != [] && q.free[0] < |q.pages|
    ensures Bounded(P.Fill(q, pid))
  {
    assert q.pages[q.free[0]].bcount < TB;
  }

  lemma GetBounded(q: P.Pool, pid: Bytes, victim: Bytes)
    requires Bounded(q)
    ensures var r := P.Get(q, pid, victim); r.Some? ==> Bounded(r.value.1)
  {
    if pid !in q.cache {
      var full := |q.cache| >= |q.pages|;
      if !(full && !(victim in q.cache && q.cache[victim] < |q.pages|)) {
        var q1 := if full then P.EvictOne(q, victim) else q;
        assert Bounded(q1);
        if q1.free != [] && q1.free[0] < |q1.pages| { FillBounded(q1, pid); }
      }
    }
  }

  lemma VictimThere(q: P.Pool, last: map<Bytes, DeltaPage>, hint: Bytes)
    requires PoolOK(q, last)
    ensures |q.cache| >= |q.pages| ==> Choose(q, hint) in q.cache
  {
    assert PoolSound(q, last);
    if |q.cache| >= |q.pages| { assert |q.cache| > 0; }
  }

  /** GetActiveDeltaPage. */
  ghost function Handed(q: P.Pool, pid: Path, hint: Bytes): (DeltaPage, P.Pool) {
    match P.Get(q, HexString(pid), Choose(q, hint))
    case Some(r) => if r.0 < |r.1.pages| then (r.1.pages[r.0], r.1) else (P.FRESH, q)
    case None => (P.FRESH, q)
  }

  lemma HandedKeeps(q: P.Pool, last: map<Bytes, DeltaPage>, pid: Path, hint: Bytes)
    requires PoolOK(q, last)
    ensures var (d, q') := Handed(q, pid, hint); FromPool(d, P.LastOf(last, HexString(pid))) && PoolOK(q', last)
  {
    assert PoolSound(q, last);
    VictimThere(q, last, hint);
    P.GetKeeps(q, last, HexString(pid), Choose(q, hint));
    GetBounded(q, HexString(pid), Choose(q, hint));
    assert PoolSound(Handed(q, pid, hint).1, last);
  }

  /** StoreActiveDeltaPage, of the page changed meanwhile. */
  ghost function Stored(q: P.Pool, pid: Path, hint: Bytes, d: DeltaPage): P.Pool {
    P.Apply(q, P.Write(HexString(pid), Choose(q, hint), d))
  }

  /** What can be stored. */
  ghost predicate Storable(pid: Path, d: DeltaPage) {
    DeltaFits(HexString(pid), d) && PrintDelta(HexString(pid), d).Some? && d.bcount < TB
  }

  lemma ApplyBounded(q: P.Pool, op: P.Op)
    requires Bounded(q) && (op.Write? ==> op.page.bcount < TB)
    ensures Bounded(P.Apply(q, op))
  {
    GetBounded(q, op.pid, op.victim);
  }

  lemma ApplyOK(q: P.Pool, last: map<Bytes, DeltaPage>, op: P.Op)
    requires PoolOK(q, last) && P.Enabled(q, op) && (op.Write? ==> op.page.bcount < TB)
    ensures PoolOK(P.Apply(q, op), P.LastStored(last, op))
  {
    assert PoolSound(q, last);
    P.ApplyKeeps(q, last, op);
    ApplyBounded(q, op);
    assert PoolSound(P.Apply(q, op), P.LastStored(last, op));
  }

  lemma StoredKeeps(q: P.Pool, last: map<Bytes, DeltaPage>, pid: Path, hint: Bytes, d: DeltaPage)
    requires PoolOK(q, last) && Storable(pid, d)
    ensures PoolOK(Stored(q, pid, hint, d), last[HexString(pid) := d])
  {
    VictimThere(q, last, hint);
    ApplyOK(q, last, P.Write(HexString(pid), Choose(q, hint), d));
  }

  /* ---- Page ids as the pool's strings ---- */

  lemma HexStringInjective(p: Path, q: Path)
    requires HexString(p) == HexString(q)
    ensures p == q
  {
    assert |p| == |q|;
    forall i | 0 <= i < |p| ensures p[i] == q[i] {
      assert HexString(p)[i] == HexString(q)[i];
    }
  }

  /* ---- Replacing active delta pages ---- */

  type Actives = map<Path, DeltaPage>

  function ChainWith(s: State, actives: Actives, pid: Path): Chain {
    if pid in actives then ChainOf(s, pid).(active := actives[pid]) else ChainOf(s, pid)
  }

  function ActiveChains(s: State, actives: Actives): map<Path, Chain> {
    map pid | pid in s.chains.Keys + actives.Keys :: ChainWith(s, actives, pid)
  }

  function WithActives(s: State, actives: Actives): State {
    s.(chains := ActiveChains(s, actives))
  }

  lemma ChainOfActives(s: State, actives: Actives, pid: Path)
    ensures ChainOf(WithActives(s, actives), pid) == ChainWith(s, actives, pid)
  {
  }

  lemma OneMoreActive(s: State, actives: Actives, pid: Path, d: DeltaPage)
    requires pid !in actives
    ensures WithActives(WithActives(s, actives), map[pid := d]) == WithActives(s, actives[pid := d])
  {
    var a, b := WithActives(WithActives(s, actives), map[pid := d]), WithActives(s, actives[pid := d]);
    forall q ensures q in a.chains <==> q in b.chains {}
    forall q | q in a.chains ensures a.chains[q] == b.chains[q] {}
  }

  lemma NoActives(s: State)
    ensures WithActives(s, map[]) == s
  {
    assert ActiveChains(s, map[]) == s.chains;
  }

  /** None of the page ids is pid or longer than it. */
  ghost predicate Later(actives: Actives, pid: Path) {
    forall q :: q in actives ==> q != pid && |q| <= |pid|
  }

  lemma EvictCommutes(s: State, actives: Actives, keys: set<CacheKey>, w: nat)
    ensures Evict(WithActives(s, actives), keys, w) == WithActives(Evict(s, keys, w), actives)
  {
    var a, b := Evict(WithActives(s, actives), keys, w), WithActives(Evict(s, keys, w), actives);
    forall q ensures ChainOf(Evict(s, keys, w), q) == ChainOf(s, q) {}
    assert a.chains == b.chains;
  }

  lemma {:induction false} CallsCommute(s: State, actives: Actives, log: Log, w: nat, pid: Path, nibs: seq<Path>)
    requires Later(actives, pid)
    ensures MakeCalls(WithActives(s, actives), log, w, pid, nibs) == MakeCalls(s, log, w, pid, nibs)
    decreases |nibs|
  {
    if nibs != [] {
      if |nibs[0]| == 2 {
        assert pid + nibs[0] !in actives;
        ChainOfActives(s, actives, pid + nibs[0]);
      }
      assert MakeCall(WithActives(s, actives), log, w, pid, nibs[0]) == MakeCall(s, log, w, pid, nibs[0]);
      CallsCommute(s, actives, MakeCall(s, log, w, pid, nibs[0]).1, w, pid, nibs[1..]);
    }
  }

  lemma RekeyCommutes(s: State, actives: Actives, w: nat, pid: Path, c: Chain, q: Page, log: Log)
    requires pid !in actives
    ensures Rekey(WithActives(s, actives), w, pid, c, q, log) == WithActives(Rekey(s, w, pid, c, q, log), actives)
  {
    ChainOfActives(s, actives, pid);
    var a, b := Rekey(WithActives(s, actives), w, pid, c, q, log), WithActives(Rekey(s, w, pid, c, q, log), actives);
    forall p ensures p in a.chains <==> p in b.chains {}
    forall p | p in a.chains ensures a.chains[p] == b.chains[p] {}
  }

  /** An iteration for pid has nothing to do with the active delta pages of later page ids. */
  lemma OneCommutes(H: Hash, L: nat, s: State, actives: Actives, w: nat, work: Work)
    requires Later(actives, work.pid)
    ensures CommitOne(H, L, WithActives(s, actives), w, work.pid, work.nibs) ==
            WithActives(CommitOne(H, L, s, w, work.pid, work.nibs), actives)
  {
    var pid := work.pid;
    var c, p := ChainOf(s, pid), OldPage(s, pid);
    ChainOfActives(s, actives, pid);
    CallsCommute(s, actives, s.log, w, pid, work.nibs);
    assert OldPage(WithActives(s, actives), pid) == p;
    var (calls, log') := MakeCalls(s, s.log, w, pid, work.nibs);
    if Shaped(p, Kind(L, pid)) && ValidCalls(calls, Kind(L, pid)) {
      var (c', q) := CommitPage(H, c, p, pid, w, calls, Kind(L, pid));
      RekeyCommutes(s, actives, w, pid, c', q, log');
    }
  }

  lemma {:induction false} PlanCommutes(H: Hash, L: nat, s: State, actives: Actives, w: nat, plan: seq<Work>,
                                        evict: seq<set<CacheKey>>)
    requires |evict| == |plan| && forall x :: 0 <= x < |plan| ==> Later(actives, plan[x].pid)
    ensures CommitAll(H, L, WithActives(s, actives), w, plan, evict) ==
            WithActives(CommitAll(H, L, s, w, plan, evict), actives)
    decreases |plan|
  {
    if plan != [] {
      var s1 := Evict(s, evict[0], w);
      EvictCommutes(s, actives, evict[0], w);
      OneCommutes(H, L, s1, actives, w, plan[0]);
      CommitAllUnfold(H, L, s, w, plan, evict);
      CommitAllUnfold(H, L, WithActives(s, actives), w, plan, evict);
      PlanCommutes(H, L, CommitOne(H, L, s1, w, plan[0].pid, plan[0].nibs), actives, w, plan[1..], evict[1..]);
    }
  }

  /* ---- Prefixes of a plan ---- */

  lemma {:induction false} CommitAllSplit(H: Hash, L: nat, s: State, w: nat, plan: seq<Work>,
                                          evict: seq<set<CacheKey>>, x: nat)
    requires |evict| == |plan| && x <= |plan|
    ensures CommitAll(H, L, s, w, plan, evict) ==
            CommitAll(H, L, CommitAll(H, L, s, w, plan[..x], evict[..x]), w, plan[x..], evict[x..])
    decreases x
  {
    if x == 0 {
      assert plan[0..] == plan && evict[0..] == evict;
    } else {
      var s1 := CommitOne(H, L, Evict(s, evict[0], w), w, plan[0].pid, plan[0].nibs);
      CommitAllUnfold(H, L, s, w, plan, evict);
      CommitAllUnfold(H, L, s, w, plan[..x], evict[..x]);
      assert plan[..x][1..] == plan[1..][..x - 1] && evict[..x][1..] == evict[1..][..x - 1];
      assert plan[1..][x - 1..] == plan[x..] && evict[1..][x - 1..] == evict[x..];
      CommitAllSplit(H, L, s1, w, plan[1..], evict[1..], x - 1);
    }
  }

  lemma TakeLast<T>(s: seq<T>, x: nat)
    requires x < |s|
    ensures s[..x + 1][..x] == s[..x] && s[..x + 1][x..] == [s[x]]
  {
  }

  lemma CommitAllSnoc(H: Hash, L: nat, s: State, w: nat, plan: seq<Work>, evict: seq<set<CacheKey>>, x: nat)
    requires |evict| == |plan| && x < |plan|
    ensures var s1 := CommitAll(H, L, s, w, plan[..x], evict[..x]);
            CommitAll(H, L, s, w, plan[..x + 1], evict[..x + 1]) ==
            CommitOne(H, L, Evict(s1, evict[x], w), w, plan[x].pid, plan[x].nibs)
  {
    TakeLast(plan, x);
    TakeLast(evict, x);
    CommitAllSplit(H, L, s, w, plan[..x + 1], evict[..x + 1], x);
  }

  lemma OthersKept(H: Hash, L: nat, s: State, w: nat, work: Work, keys: set<CacheKey>, pid: Path)
    requires work.pid != pid
    ensures ChainOf(CommitOne(H, L, Evict(s, keys, w), w, work.pid, work.nibs), pid) == ChainOf(s, pid)
  {
  }

  lemma {:induction false} PlanKeepsOthers(H: Hash, L: nat, s: State, w: nat, plan: seq<Work>,
                                           evict: seq<set<CacheKey>>, pid: Path)
    requires |evict| == |plan| && forall x :: 0 <= x < |plan| ==> plan[x].pid != pid
    ensures ChainOf(CommitAll(H, L, s, w, plan, evict), pid) == ChainOf(s, pid)
    decreases |plan|
  {
    if plan != [] {
      OthersKept(H, L, s, w, plan[0], evict[0], pid);
      CommitAllUnfold(H, L, s, w, plan, evict);
      PlanKeepsOthers(H, L, CommitOne(H, L, Evict(s, evict[0], w), w, plan[0].pid, plan[0].nibs), w, plan[1..],
          evict[1..], pid);
    }
  }

  /** The page id at x has its last chain when its own iteration is over. */
  lemma ChainSettled(H: Hash, L: nat, s: State, batch: map<Path, Bytes>, w: nat, plan: seq<Work>,
                     evict: seq<set<CacheKey>>, x: nat)
    requires |evict| == |plan| && x < |plan| && IsPlan(L, batch, plan)
    ensures ChainOf(CommitAll(H, L, s, w, plan, evict), plan[x].pid) ==
            ChainOf(CommitAll(H, L, s, w, plan[..x + 1], evict[..x + 1]), plan[x].pid)
  {
    CommitAllSplit(H, L, s, w, plan, evict, x + 1);
    PlanKeepsOthers(H, L, CommitAll(H, L, s, w, plan[..x + 1], evict[..x + 1]), w, plan[x + 1..], evict[x + 1..],
        plan[x].pid);
  }

  /* ---- The commit on the pool ---- */

  /** The main loop of CalcRootHash with the pool: the active delta page of each page id is
      handed out, changed and stored again. */
  ghost function PoolCommit(H: Hash, L: nat, s: State, q: P.Pool, w: nat, plan: seq<Work>, evict: seq<set<CacheKey>>,
                            hints: seq<Bytes>): (r: (State, P.Pool))
    requires |evict| == |plan| == |hints|
    decreases |plan|
  {
    if plan == [] then (s, q)
    else
      var (s1, q1) := PoolOne(H, L, s, q, w, plan[0], evict[0], hints[0]);
      PoolCommit(H, L, s1, q1, w, plan[1..], evict[1..], hints[1..])
  }

  ghost function PoolOne(H: Hash, L: nat, s: State, q: P.Pool, w: nat, work: Work, keys: set<CacheKey>, hint: Bytes):
    (r: (State, P.Pool))
  {
    var (d, q1) := Handed(q, work.pid, hint);
    var s1 := CommitOne(H, L, Evict(WithActives(s, map[work.pid := d]), keys, w), w, work.pid, work.nibs);
    (s1, Stored(q1, work.pid, hint, ChainOf(s1, work.pid).active))
  }
}
