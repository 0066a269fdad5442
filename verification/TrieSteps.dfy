/** A commit seen from its page ids: each touched chain takes one CommitPage step from what
    it was when the commit began, every other chain stays, and what is cached afterwards was
    cached before or made by one of the steps. */
module TrieSteps {
  import opened Types
  import opened Pages
  import opened Chains
  import opened ChainInvariant
  import opened PageCommits
  import opened Sizes
  import opened ValueLog
  import opened History
  import opened PageSpecs
  import opened TrieState
  import opened TrieInvariant
  import opened TrieCommit
  import opened TrieRuns

  /** The page a step began with, its calls, and the page it ended with. */
  datatype Move = Move(work: Work, p: Page, calls: seq<Call>, q: Page)

  type Moves = map<Path, Move>

  ghost predicate PiecesOf(calls: seq<Call>, nibs: seq<Path>) {
    |calls| == |nibs| && forall x :: 0 <= x < |calls| ==> calls[x].nibbles == nibs[x]
  }

  ghost predicate CallsIn(log: Log, calls: seq<Call>) {
    forall x :: 0 <= x < |calls| ==> calls[x].loc == NO_LOCATION || ValidLocation(log, calls[x].loc)
  }

  /** No key is deleted. */
  ghost predicate Live(put: map<Path, Bytes>) {
    forall k :: k in put ==> put[k] != []
  }

  /** With 32-byte hashes and no deletions, calls carry nothing shorter. */
  ghost predicate Feeds(H: Hash, put: map<Path, Bytes>, calls: seq<Call>, loss: Loss) {
    WideHash(H) && Live(put) && !loss.Hashless? ==> forall x :: 0 <= x < |calls| ==> Solid(calls[x])
  }

  lemma TouchedHash(H: Hash, L: nat, h: seq<Commit>, c: Commit, q: Path)
    requires WideHash(H) && Live(c.batch) && |q| <= L && Touches(c.batch, q) && (forall k :: k in c.batch ==> |k| == L)
    ensures |ChildHash(H, Contents(h + [c]), q, L)| == HASH_SIZE
  {
    ContentsAppend(h, c);
    TouchesSum(Contents(h), c.batch, q);
    if |q| == L { TouchKey(c.batch, q, L); }
  }

  lemma CallsFeed(H: Hash, L: nat, h: seq<Commit>, c: Commit, log: Log, pid: Path, calls: seq<Call>, loss: Loss)
    requires PageId(L, pid) && ValidHistory(h + [c], L) && CallsFor(H, L, h, c, log, pid, calls, loss)
    ensures Feeds(H, c.batch, calls, loss)
  {
    assert (h + [c])[|h|] == c;
    forall x | WideHash(H) && Live(c.batch) && !loss.Hashless? && 0 <= x < |calls| ensures Solid(calls[x]) {
      assert CallFor(H, L, h, c, log, pid, calls[x], loss) && Calls(calls, calls[x].nibbles);
      if Kind(L, pid) == 2 { TouchedHash(H, L, h, c, pid + calls[x].nibbles); }
    }
  }

  /** The step of one page id in commit w, from state s to the chain c. */
  ghost predicate BroughtTo(H: Hash, L: nat, s: State, w: nat, c: Chain, m: Move) {
    var pid := m.work.pid;
    var b, n := ChainOf(s, pid), Kind(L, pid);
    && Structure(b, n, b.cur) && Counters(b) && b.cur < w
    && CanOpen(s, pid, m.p) && Shaped(m.p, n)
    && m.calls != [] && ValidCalls(m.calls, n) && PiecesOf(m.calls, m.work.nibs)
    && CommitPage(H, b, m.p, pid, w, m.calls, n) == (c, m.q)
  }

  /** The quantifier keeps the definition out of the way until it is mentioned. */
  ghost predicate Brought(H: Hash, L: nat, s: State, w: nat, c: Chain, m: Move) {
    forall t: Move :: t == m ==> BroughtTo(H, L, s, w, c, t)
  }

  ghost predicate ChainMoved(H: Hash, L: nat, s: State, s': State, w: nat, moves: Moves, pid: Path, loss: Loss) {
    if pid in moves then
      moves[pid].work.pid == pid && Brought(H, L, s, w, ChainOf(s', pid), moves[pid]) &&
          CallsIn(s'.log, moves[pid].calls) && Feeds(H, s.put, moves[pid].calls, loss)
    else ChainOf(s', pid) == ChainOf(s, pid)
  }

  ghost predicate CacheMoved(s: State, s': State, w: nat, moves: Moves, k: CacheKey)
    requires k in s'.cache
  {
    (k in s.cache && s'.cache[k] == s.cache[k]) || (k.version == w && k.pid in moves && s'.cache[k] == moves[k.pid].q)
  }

  ghost predicate Moved(H: Hash, L: nat, s: State, s': State, w: nat, moves: Moves, loss: Loss) {
    && s'.current == s.current && Extends(s.log, s'.log)
    && (forall pid :: PageId(L, pid) ==> ChainMoved(H, L, s, s', w, moves, pid, loss))
    && (forall k :: k in s'.cache ==> CacheMoved(s, s', w, moves, k))
  }

  /* ---- The calls' places ---- */

  lemma {:induction false} MakeCallsIn(s: State, log: Log, w: nat, pid: Path, nibs: seq<Path>)
    ensures var (calls, log') := MakeCalls(s, log, w, pid, nibs);
            PiecesOf(calls, nibs) && CallsIn(log', calls) && Extends(log, log')
    decreases |nibs|
  {
    if nibs != [] {
      var (call, log1) := MakeCall(s, log, w, pid, nibs[0]);
      if |nibs[0]| != 2 {
        AppendLocates(log, Record(w, pid + nibs[0], if pid + nibs[0] in s.put then s.put[pid + nibs[0]] else []));
      }
      MakeCallsIn(s, log1, w, pid, nibs[1..]);
      var (calls, log2) := MakeCalls(s, log1, w, pid, nibs[1..]);
      ExtendsTransitive(log, log1, log2);
      assert ([call] + calls)[1..] == calls;
      forall x | 0 <= x < |[call] + calls| && ([call] + calls)[x].loc != NO_LOCATION
        ensures ValidLocation(log2, ([call] + calls)[x].loc)
      {
        if x > 0 { assert ([call] + calls)[x] == calls[x - 1]; } else { assert [call][0] == call; }
      }
    }
  }

  /* ---- The log after a commit ---- */

  /** What the pieces of one page id append to the log. */
  function CallsLog(put: map<Path, Bytes>, log: Log, w: nat, pid: Path, nibs: seq<Path>): Log
    decreases |nibs|
  {
    if nibs == [] then log
    else if |nibs[0]| == 2 then CallsLog(put, log, w, pid, nibs[1..])
    else
      var record := Record(w, pid + nibs[0], if pid + nibs[0] in put then put[pid + nibs[0]] else []);
      CallsLog(put, Append(log, record).1, w, pid, nibs[1..])
  }

  function PlanLog(put: map<Path, Bytes>, log: Log, w: nat, plan: seq<Work>): Log
    decreases |plan|
  {
    if plan == [] then log
    else PlanLog(put, CallsLog(put, log, w, plan[0].pid, plan[0].nibs), w, plan[1..])
  }

  lemma {:induction false} MakeCallsLog(s: State, log: Log, w: nat, pid: Path, nibs: seq<Path>)
    ensures MakeCalls(s, log, w, pid, nibs).1 == CallsLog(s.put, log, w, pid, nibs)
    decreases |nibs|
  {
    if nibs != [] {
      var (call, log1) := MakeCall(s, log, w, pid, nibs[0]);
      MakeCallsLog(s, log1, w, pid, nibs[1..]);
    }
  }

  /* ---- One iteration ---- */

  lemma OneReady(H: Hash, L: nat, s: State, g: Snaps, h: seq<Commit>, cm: Commit, work: Work, loss: Loss)
    returns (p: Page, calls: seq<Call>, log': Log)
    requires ValidHistory(h + [cm], L) && ValidHistory(h, L) && s.put == cm.batch
    requires WorkFor(L, cm.batch, work) && ChildrenDone(H, L, s, h + [cm], cm.version, work, loss)
    requires PageInv(H, L, s, g, h, work.pid, loss) && RefilledAt(s, work.pid, cm.batch, loss)
    ensures p == OldPage(s, work.pid) && (calls, log') == MakeCalls(s, s.log, cm.version, work.pid, work.nibs)
    ensures Feeds(H, cm.batch, calls, loss)
    ensures var c, n := ChainOf(s, work.pid), Kind(L, work.pid);
            Structure(c, n, c.cur) && Counters(c) && c.cur < cm.version && Shaped(p, n) && calls != [] &&
                ValidCalls(calls, n)
  {
    var pid := work.pid;
    p := OldPage(s, pid);
    OldPageRefilled(s, pid, cm.batch, loss);
    OldPageBefore(H, L, s, g, h, pid, loss);
    calls, log' := PieceCalls(H, L, s, h, cm, work, loss);
    CallsFeed(H, L, h, cm, log', pid, calls, loss);
    PageAfterSnaps(H, L, SnapsOf(g, pid), s.log, log', h, cm, pid, p, calls, loss);
    CurBelow(h, cm, L, pid);
  }

  /** The step of the page id that an iteration deals with. */
  lemma OneMove(H: Hash, L: nat, s: State, g: Snaps, h: seq<Commit>, cm: Commit, work: Work, loss: Loss)
    returns (m: Move)
    requires ValidHistory(h + [cm], L) && ValidHistory(h, L) && s.put == cm.batch
    requires WorkFor(L, cm.batch, work) && ChildrenDone(H, L, s, h + [cm], cm.version, work, loss)
    requires PageInv(H, L, s, g, h, work.pid, loss) && RefilledAt(s, work.pid, cm.batch, loss)
    ensures var s' := CommitOne(H, L, s, cm.version, work.pid, work.nibs);
            m.work == work && Brought(H, L, s, cm.version, ChainOf(s', work.pid), m) && CallsIn(s'.log, m.calls) &&
            Feeds(H, cm.batch, m.calls, loss) &&
            s'.cache == (s.cache - {CacheKey(ChainOf(s, work.pid).cur, work.pid)})[CacheKey(cm.version,
                work.pid) := m.q] &&
            s'.log == CallsLog(cm.batch, s.log, cm.version, work.pid, work.nibs)
  {
    MakeCallsLog(s, s.log, cm.version, work.pid, work.nibs);
    var pid, w, n := work.pid, cm.version, Kind(L, work.pid);
    var p, calls, log' := OneReady(H, L, s, g, h, cm, work, loss);
    MakeCallsIn(s, s.log, w, pid, work.nibs);
    OldPageOpened(s, pid);
    m := Move(work, p, calls, CommitPage(H, ChainOf(s, pid), p, pid, w, calls, n).1);
    assert BroughtTo(H, L, s, w, ChainOf(CommitOne(H, L, s, w, pid, work.nibs), pid), m);
  }

  /** Seen from the state s0 at the beginning of the commit. */
  lemma SeenFromStart(H: Hash, L: nat, s0: State, s: State, w: nat, moves: Moves, c: Chain, m: Move, loss: Loss)
    requires Moved(H, L, s0, s, w, moves, loss) && PageId(L, m.work.pid) && m.work.pid !in moves
    requires Brought(H, L, s, w, c, m)
    ensures Brought(H, L, s0, w, c, m)
  {
    var key := CacheKey(ChainOf(s, m.work.pid).cur, m.work.pid);
    assert ChainMoved(H, L, s0, s, w, moves, m.work.pid, loss);
    assert BroughtTo(H, L, s, w, c, m);
    if key in s.cache { assert CacheMoved(s0, s, w, moves, key); }
    assert BroughtTo(H, L, s0, w, c, m);
  }

  lemma EvictMoves(H: Hash, L: nat, s0: State, s: State, keys: set<CacheKey>, w: nat, moves: Moves, loss: Loss)
    requires Moved(H, L, s0, s, w, moves, loss)
    ensures Moved(H, L, s0, Evict(s, keys, w), w, moves, loss)
  {
    var s1 := Evict(s, keys, w);
    forall pid | PageId(L, pid) ensures ChainMoved(H, L, s0, s1, w, moves, pid, loss) {
      assert ChainMoved(H, L, s0, s, w, moves, pid, loss);
    }
    forall k | k in s1.cache ensures CacheMoved(s0, s1, w, moves, k) {
      assert CacheMoved(s0, s, w, moves, k);
    }
  }

  lemma CacheMovesOn(s0: State, s: State, s': State, w: nat, moves: Moves, m: Move, old': CacheKey, k: CacheKey)
    requires k in s.cache ==> CacheMoved(s0, s, w, moves, k)
    requires m.work.pid !in moves && k in s'.cache
    requires s'.cache == (s.cache - {old'})[CacheKey(w, m.work.pid) := m.q]
    ensures CacheMoved(s0, s', w, moves[m.work.pid := m], k)
  {
  }

  lemma MoveOn(H: Hash, L: nat, s0: State, s: State, s': State, w: nat, moves: Moves, m: Move, loss: Loss)
    requires Moved(H, L, s0, s, w, moves, loss) && OneFrame(s, s', m.work.pid) && m.work.pid !in moves
    requires Brought(H, L, s0, w, ChainOf(s', m.work.pid), m) && CallsIn(s'.log, m.calls)
    requires Feeds(H, s0.put, m.calls, loss)
    requires s'.cache == (s.cache - {CacheKey(ChainOf(s, m.work.pid).cur, m.work.pid)})[CacheKey(w, m.work.pid) := m.q]
    ensures Moved(H, L, s0, s', w, moves[m.work.pid := m], loss)
  {
    ExtendsTransitive(s0.log, s.log, s'.log);
    forall pid | PageId(L, pid) ensures ChainMoved(H, L, s0, s', w, moves[m.work.pid := m], pid, loss) {
    }
    forall k | k in s'.cache ensures CacheMoved(s0, s', w, moves[m.work.pid := m], k) {
      CacheMovesOn(s0, s, s', w, moves, m, CacheKey(ChainOf(s, m.work.pid).cur, m.work.pid), k);
    }
  }

  lemma IterationMoves(H: Hash, L: nat, s0: State, s: State, g: Snaps, h: seq<Commit>, cm: Commit, done: set<Path>,
                       plan: seq<Work>, keys: set<CacheKey>, moves: Moves, loss: Loss) returns (m: Move)
    requires ValidHistory(h + [cm], L) && ValidHistory(h, L) && s.put == cm.batch
    requires PlanRest(L, cm.batch, done, plan) && plan != [] && MidInv(H, L, s, g, h, cm, done, loss)
    requires Moved(H, L, s0, s, cm.version, moves, loss) && moves.Keys == done && s0.put == cm.batch
    ensures var s' := CommitOne(H, L, Evict(s, keys, cm.version), cm.version, plan[0].pid, plan[0].nibs);
            m.work == plan[0] && Moved(H, L, s0, s', cm.version, moves[plan[0].pid := m], loss) &&
            s'.log == CallsLog(cm.batch, s.log, cm.version, plan[0].pid, plan[0].nibs)
  {
    var w, work := cm.version, plan[0];
    var s1 := Evict(s, keys, w);
    IterationDone(H, L, s, g, h, cm, done, plan, keys, loss);
    HeadWork(L, cm.batch, done, plan);
    assert work.pid !in done;
    HeadChildrenDone(H, L, s1, g, h, cm, done, plan, loss);
    assert PageWaits(H, L, s1, g, h, cm, work.pid, loss);
    m := OneMove(H, L, s1, g, h, cm, work, loss);
    var s' := CommitOne(H, L, s1, w, work.pid, work.nibs);
    EvictMoves(H, L, s0, s, keys, w, moves, loss);
    SeenFromStart(H, L, s0, s1, w, moves, ChainOf(s', work.pid), m, loss);
    MoveOn(H, L, s0, s1, s', w, moves, m, loss);
  }

  /* ---- A whole commit ---- */

  /** Every work item has its move. */
  ghost predicate WorksMoved(moves: Moves, plan: seq<Work>) {
    forall x :: 0 <= x < |plan| ==> plan[x].pid in moves && moves[plan[x].pid].work == plan[x]
  }

  /** And every move its work item. */
  ghost predicate MovesOf(moves: Moves, plan: seq<Work>) {
    WorksMoved(moves, plan) && forall pid :: pid in moves ==> moves[pid].work in plan && moves[pid].work.pid == pid
  }

  lemma WorksNext(moves: Moves, plan: seq<Work>)
    requires plan != [] && WorksMoved(moves, plan[1..]) && plan[0].pid in moves && moves[plan[0].pid].work == plan[0]
    ensures WorksMoved(moves, plan)
  {
    forall x | 0 <= x < |plan| ensures plan[x].pid in moves && moves[plan[x].pid].work == plan[x] {
      if x > 0 { assert plan[1..][x - 1] == plan[x]; }
    }
  }

  ghost predicate Kept(moves: Moves, more: Moves) {
    forall pid :: pid in moves ==> pid in more && more[pid] == moves[pid]
  }

  /** The next iteration of a plan, and its step. */
  lemma NextMoves(H: Hash, L: nat, s0: State, s: State, g: Snaps, h: seq<Commit>, cm: Commit, done: set<Path>,
                  plan: seq<Work>, evict: seq<set<CacheKey>>, moves: Moves, loss: Loss)
    returns (s1: State, g1: Snaps, done1: set<Path>, more: Moves)
    requires ValidHistory(h + [cm], L) && ValidHistory(h, L) && s.put == cm.batch &&
             |evict| == |plan| && plan != []
    requires PlanRest(L, cm.batch, done, plan) && MidInv(H, L, s, g, h, cm, done, loss)
    requires Moved(H, L, s0, s, cm.version, moves, loss) && moves.Keys == done && s0.put == cm.batch
    ensures s1.put == cm.batch && PlanRest(L, cm.batch, done1, plan[1..])
    ensures MidInv(H, L, s1, g1, h, cm, done1, loss) && done1 + PidsOf(plan[1..]) == done + PidsOf(plan)
    ensures CommitAll(H, L, s, cm.version, plan, evict) == CommitAll(H, L, s1, cm.version, plan[1..], evict[1..])
    ensures Moved(H, L, s0, s1, cm.version, more, loss) && more.Keys == done1
    ensures Kept(moves, more) && plan[0].pid in more && more[plan[0].pid].work == plan[0]
    ensures s1.log == CallsLog(cm.batch, s.log, cm.version, plan[0].pid, plan[0].nibs)
  {
    var m := IterationMoves(H, L, s0, s, g, h, cm, done, plan, evict[0], moves, loss);
    s1, g1, done1 := NextIteration(H, L, s, g, h, cm, done, plan, evict, loss);
    more := moves[plan[0].pid := m];
    NewKey(moves, plan[0].pid, m, done);
  }

  lemma {:induction false} LoopMoves(H: Hash, L: nat, s0: State, s: State, g: Snaps, h: seq<Commit>, cm: Commit,
                                     done: set<Path>,
                                     plan: seq<Work>, evict: seq<set<CacheKey>>, moves: Moves, loss: Loss)
    returns (moves': Moves)
    requires ValidHistory(h + [cm], L) && ValidHistory(h, L) && s.put == cm.batch &&
             |evict| == |plan|
    requires PlanRest(L, cm.batch, done, plan) && MidInv(H, L, s, g, h, cm, done, loss)
    requires Moved(H, L, s0, s, cm.version, moves, loss) && moves.Keys == done && s0.put == cm.batch
    ensures Moved(H, L, s0, CommitAll(H, L, s, cm.version, plan, evict), cm.version, moves', loss)
    ensures WorksMoved(moves', plan) && moves'.Keys == done + PidsOf(plan)
    ensures CommitAll(H, L, s, cm.version, plan, evict).log == PlanLog(cm.batch, s.log, cm.version, plan)
    ensures Kept(moves, moves')
    decreases |plan|
  {
    if plan == [] {
      moves' := moves;
    } else {
      var s1, g1, done1, more := NextMoves(H, L, s0, s, g, h, cm, done, plan, evict, moves, loss);
      moves' := LoopMoves(H, L, s0, s1, g1, h, cm, done1, plan[1..], evict[1..], more, loss);
      WorksNext(moves', plan);
    }
  }

  lemma NewKey(moves: Moves, pid: Path, m: Move, done: set<Path>)
    requires moves.Keys == done
    ensures moves[pid := m].Keys == done + {pid}
  {
  }

  lemma AllMoved(moves: Moves, plan: seq<Work>)
    requires WorksMoved(moves, plan) && moves.Keys == {} + PidsOf(plan)
    ensures MovesOf(moves, plan)
  {
    forall pid | pid in moves ensures moves[pid].work in plan && moves[pid].work.pid == pid {
      assert pid in PidsOf(plan);
      var x :| 0 <= x < |plan| && plan[x].pid == pid;
      assert moves[pid].work == plan[x];
    }
  }

  /** A commit is one step for each page id of its plan and none for the others. */
  lemma CommitMoves(H: Hash, L: nat, s: State, h: seq<Commit>, op: Op, loss: Loss) returns (moves: Moves)
    requires Agrees(H, L, s, h, loss) && Enabled(L, s, h, op, loss) && op.DoCommit? && s.put != map[]
    ensures Moved(H, L, s, Apply(H, L, s, op), op.version, moves, loss) && MovesOf(moves, op.plan)
    ensures Apply(H, L, s, op).log == PlanLog(s.put, s.log, op.version, op.plan)
  {
    var g: Snaps :| TrieInv(H, L, s, g, h, loss);
    var cm := Commit(op.version, s.put);
    HistoryGrows(h, cm, L);
    NothingMoved(H, L, s, op.version, loss);
    moves := LoopMoves(H, L, s, s, g, h, cm, {}, op.plan, op.evict, map[], loss);
    AllMoved(moves, op.plan);
    PutAside(H, L, s, CommitAll(H, L, s, op.version, op.plan, op.evict), op.version, moves, loss);
  }

  lemma NothingMoved(H: Hash, L: nat, s: State, w: nat, loss: Loss)
    ensures Moved(H, L, s, s, w, map[], loss)
  {
  }

  lemma PutAside(H: Hash, L: nat, s: State, s': State, w: nat, moves: Moves, loss: Loss)
    requires Moved(H, L, s, s', w, moves, loss)
    ensures Moved(H, L, s, s'.(put := map[]), w, moves, loss)
  {
    var s1 := s'.(put := map[]);
    forall pid | PageId(L, pid) ensures ChainMoved(H, L, s, s1, w, moves, pid, loss) {
      assert ChainMoved(H, L, s, s', w, moves, pid, loss);
    }
    forall k | k in s1.cache ensures CacheMoved(s, s1, w, moves, k) {
      assert CacheMoved(s, s', w, moves, k);
    }
  }
}
