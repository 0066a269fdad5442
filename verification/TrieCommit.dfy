/** A commit takes the trie from agreeing with the simple store before the batch to
    agreeing with it after, page by page, deepest pages first. */
module TrieCommit {
  import opened Types
  import opened Pages
  import opened Chains
  import opened ChainInvariant
  import opened PageCommits
  import opened Loads
  import opened Evolution
  import opened ValueLog
  import opened History
  import opened PageSpecs
  import opened TrieState
  import opened TrieInvariant

  /** The nibbles of a work item are exactly the pieces of touched keys after its page id. */
  ghost predicate WorkFor(L: nat, batch: map<Path, Bytes>, work: Work) {
    && PageId(L, work.pid) && Touches(batch, work.pid)
    && (forall x, y :: 0 <= x < y < |work.nibs| ==> work.nibs[x] != work.nibs[y])
    && (forall x :: 0 <= x < |work.nibs| ==> |work.nibs[x]| == Kind(L, work.pid))
    && (forall nibs: Path :: |nibs| == Kind(L, work.pid) ==>
          (nibs in work.nibs <==> Touches(batch, work.pid + nibs)))
  }

  /** The child page has been brought to version w and carries its final hash. */
  ghost predicate ChildDone(H: Hash, L: nat, s: State, h: seq<Commit>, w: nat, q: Path, loss: Loss) {
    CacheKey(w, q) in s.cache &&
    var p := s.cache[CacheKey(w, q)];
    !loss.Hashless? ==> p.root.Some? && p.root.value.hash == ChildHash(H, Contents(h), q, L)
  }

  ghost predicate ChildrenDone(H: Hash, L: nat, s: State, h: seq<Commit>, w: nat, work: Work, loss: Loss) {
    Kind(L, work.pid) == 2 ==>
      forall x :: 0 <= x < |work.nibs| && |work.nibs[x]| == 2 ==>
          ChildDone(H, L, s, h, w, work.pid + work.nibs[x], loss)
  }

  /* ---- The calls of one page ---- */

  lemma MakeCallFor(H: Hash, L: nat, s: State, log: Log, h: seq<Commit>, c: Commit, pid: Path, nibs: Path, loss: Loss)
    requires PageId(L, pid) && s.put == c.batch && |nibs| == Kind(L, pid)
    requires |nibs| < 2 ==> pid + nibs in c.batch
    requires |nibs| == 2 ==> ChildDone(H, L, s, h + [c], c.version, pid + nibs, loss)
    ensures var (call, log') := MakeCall(s, log, c.version, pid, nibs);
            call.nibbles == nibs && Extends(log, log') && CallFor(H, L, h, c, log', pid, call, loss)
  {
    if |nibs| < 2 {
      var value := c.batch[pid + nibs];
      AppendLocates(log, Record(c.version, pid + nibs, value));
      ParseInvertsRecord(c.version, pid + nibs, value);
    }
  }

  lemma CallForLog(H: Hash, L: nat, h: seq<Commit>, c: Commit, log: Log, log': Log, pid: Path, call: Call, loss: Loss)
    requires PageId(L, pid) && |call.nibbles| == Kind(L, pid)
    requires CallFor(H, L, h, c, log, pid, call, loss) && Extends(log, log')
    ensures CallFor(H, L, h, c, log', pid, call, loss)
  {
    if |call.nibbles| < 2 { ExtendsKeeps(log, log', call.loc); }
  }

  /** Each nibble piece of a list gets its call. */
  lemma {:induction false} MakeCallsFor(H: Hash, L: nat, s: State, log: Log, h: seq<Commit>, c: Commit, pid: Path,
                                        nibs: seq<Path>, loss: Loss)
    requires PageId(L, pid) && s.put == c.batch
    requires forall x :: 0 <= x < |nibs| ==> |nibs[x]| == Kind(L, pid)
    requires forall x :: 0 <= x < |nibs| && |nibs[x]| < 2 ==> pid + nibs[x] in c.batch
    requires Kind(L, pid) == 2 ==>
               forall x :: 0 <= x < |nibs| ==> ChildDone(H, L, s, h + [c], c.version, pid + nibs[x], loss)
    ensures var (calls, log') := MakeCalls(s, log, c.version, pid, nibs);
            |calls| == |nibs| && Extends(log, log') &&
            forall x :: 0 <= x < |nibs| ==>
              calls[x].nibbles == nibs[x] && CallFor(H, L, h, c, log', pid, calls[x], loss)
    decreases |nibs|
  {
    if nibs != [] {
      var (call, log1) := MakeCall(s, log, c.version, pid, nibs[0]);
      MakeCallFor(H, L, s, log, h, c, pid, nibs[0], loss);
      MakeCallsFor(H, L, s, log1, h, c, pid, nibs[1..], loss);
      var (calls, log2) := MakeCalls(s, log1, c.version, pid, nibs[1..]);
      ExtendsTransitive(log, log1, log2);
      CallForLog(H, L, h, c, log1, log2, pid, call, loss);
      assert MakeCalls(s, log, c.version, pid, nibs) == ([call] + calls, log2);
      forall x | 0 <= x < |nibs|
        ensures ([call] + calls)[x].nibbles == nibs[x] && CallFor(H, L, h, c, log2, pid, ([call] + calls)[x], loss)
      {
        if x > 0 { assert nibs[x] == nibs[1..][x - 1]; }
      }
    }
  }

  lemma CallsOfPieces(calls: seq<Call>, nibs: seq<Path>, n: nat)
    requires n <= 2 && |calls| == |nibs|
    requires forall x :: 0 <= x < |nibs| ==> calls[x].nibbles == nibs[x] && |nibs[x]| == n
    requires forall x, y :: 0 <= x < y < |nibs| ==> nibs[x] != nibs[y]
    ensures ValidCalls(calls, n) && Distinct(calls)
    ensures forall t: Path :: Calls(calls, t) <==> t in nibs
  {
    forall t: Path ensures Calls(calls, t) <==> t in nibs {
      if t in nibs {
        var x :| 0 <= x < |nibs| && nibs[x] == t;
        assert calls[x].nibbles == t;
      }
    }
  }

  lemma PiecesAreKeys(L: nat, batch: map<Path, Bytes>, work: Work)
    requires WorkFor(L, batch, work) && forall k :: k in batch ==> |k| == L
    ensures forall x :: 0 <= x < |work.nibs| && |work.nibs[x]| < 2 ==> work.pid + work.nibs[x] in batch
  {
    forall x | 0 <= x < |work.nibs| && |work.nibs[x]| < 2 ensures work.pid + work.nibs[x] in batch {
      assert work.nibs[x] in work.nibs;
      TouchKey(batch, work.pid + work.nibs[x], L);
    }
  }

  lemma WorkCalls(H: Hash, L: nat, s: State, h: seq<Commit>, c: Commit, work: Work, loss: Loss)
    requires ValidHistory(h + [c], L) && s.put == c.batch && WorkFor(L, c.batch, work)
    requires ChildrenDone(H, L, s, h + [c], c.version, work, loss)
    ensures var (calls, log') := MakeCalls(s, s.log, c.version, work.pid, work.nibs);
            Extends(s.log, log') && CallsFor(H, L, h, c, log', work.pid, calls, loss)
  {
    assert (h + [c])[|h|] == c;
    PiecesAreKeys(L, c.batch, work);
    MakeCallsFor(H, L, s, s.log, h, c, work.pid, work.nibs, loss);
    CallsOfPieces(MakeCalls(s, s.log, c.version, work.pid, work.nibs).0, work.nibs, Kind(L, work.pid));
  }

  /* ---- One page ---- */

  lemma OldPageBefore(H: Hash, L: nat, s: State, g: Snaps, h: seq<Commit>, pid: Path, loss: Loss)
    requires PageId(L, pid) && ValidHistory(h, L) && PageInv(H, L, s, g, h, pid, loss)
    ensures var p, c := OldPage(s, pid), ChainOf(s, pid);
            PageBefore(H, L, h, s.log, pid, p, loss) && Shaped(p, Kind(L, pid)) &&
            Same(p, At(SnapsOf(g, pid), c.cur), loss) && (forall v :: v in SnapsOf(g, pid) ==> v <= c.cur)
  {
    var c, snaps := ChainOf(s, pid), SnapsOf(g, pid);
    NewestSnap(H, L, c, snaps, h, s.log, pid, loss);
    GetPageExact(s, Kind(L, pid), snaps, c.cur, pid, loss);
    var p := OldPage(s, pid);
    if c.cur == 0 {
      SameEmpty(p, loss);
    } else {
      SpecSince(H, L, h, s.log, pid, snaps[c.cur], loss);
      SameFlip(p, snaps[c.cur], loss);
      SpecSame(H, L, h, s.log, pid, snaps[c.cur], p, loss);
    }
  }

  lemma SameFlip(p: Page, q: Page, loss: Loss)
    requires Same(p, q, loss)
    ensures Same(q, p, loss)
  {
  }

  lemma PageBeforeLog(H: Hash, L: nat, h: seq<Commit>, log: Log, log': Log, pid: Path, p: Page, loss: Loss)
    requires PageId(L, pid) && PageBefore(H, L, h, log, pid, p, loss) && Extends(log, log')
    ensures PageBefore(H, L, h, log', pid, p, loss)
  {
    if LastTouch(h, pid) > 0 { SpecLog(H, L, h, log, log', pid, p, loss); }
  }

  lemma SnapsLog(H: Hash, L: nat, h: seq<Commit>, log: Log, log': Log, pid: Path, snaps: map<nat, Page>, loss: Loss)
    requires PageId(L, pid) && SnapsOK(H, L, h, log, pid, snaps, loss) && Extends(log, log')
    ensures SnapsOK(H, L, h, log', pid, snaps, loss)
  {
    forall v: nat | v in snaps ensures PageSpec(H, L, Upto(h, v), log', pid, snaps[v], loss) {
      SpecLog(H, L, Upto(h, v), log, log', pid, snaps[v], loss);
    }
  }

  lemma TouchedAppend(h: seq<Commit>, c: Commit, L: nat, p: Path, v: nat)
    requires ValidHistory(h + [c], L) && ValidHistory(h, L)
    ensures TouchedAt(h + [c], p, v) <==> TouchedAt(h, p, v) || (v == c.version && Touches(c.batch, p))
  {
    assert (h + [c])[|h|] == c;
    UptoAppend(h, c, v);
    TouchAppend(h, c, p);
    TouchIsWritten(h, p, L);
    if h != [] { assert (h + [c])[|h| - 1] == h[|h| - 1]; }
    if v >= c.version {
      UptoAll(h, v);
    }
  }

  lemma SnapAfter(H: Hash, L: nat, h: seq<Commit>, c: Commit, log: Log, pid: Path, snaps: map<nat, Page>, q: Page,
                  v: nat, loss: Loss)
    requires PageId(L, pid) && ValidHistory(h + [c], L) && ValidHistory(h, L)
    requires v != c.version ==>
               v in snaps && TouchedAt(h, pid, v) && PageSpec(H, L, Upto(h, v), log, pid, snaps[v], loss)
    requires PageSpec(H, L, h + [c], log, pid, q, loss)
    ensures PageSpec(H, L, Upto(h + [c], v), log, pid, snaps[c.version := q][v], loss)
  {
    if v != c.version {
      UptoOld(h, c, L, pid, v);
    } else {
      UptoAppend(h, c, v);
    }
  }

  lemma SnapsAfterKeys(h: seq<Commit>, c: Commit, L: nat, pid: Path, snaps: map<nat, Page>, q: Page)
    requires ValidHistory(h + [c], L) && ValidHistory(h, L) && Touches(c.batch, pid) && SnapKeys(h, pid, snaps)
    ensures SnapKeys(h + [c], pid, snaps[c.version := q])
  {
    forall v: nat ensures v in snaps[c.version := q] <==> TouchedAt(h + [c], pid, v) {
      TouchedAppend(h, c, L, pid, v);
    }
  }

  lemma SnapsAfterSpecs(H: Hash, L: nat, h: seq<Commit>, c: Commit, log: Log, pid: Path, snaps: map<nat, Page>,
                        q: Page, loss: Loss)
    requires PageId(L, pid) && ValidHistory(h + [c], L) && ValidHistory(h, L)
    requires SnapKeys(h, pid, snaps) && SnapSpecs(H, L, h, log, pid, snaps, loss)
    requires PageSpec(H, L, h + [c], log, pid, q, loss)
    ensures SnapSpecs(H, L, h + [c], log, pid, snaps[c.version := q], loss)
  {
    forall v: nat | v in snaps[c.version := q]
      ensures PageSpec(H, L, Upto(h + [c], v), log, pid, snaps[c.version := q][v], loss)
    {
      SnapAfter(H, L, h, c, log, pid, snaps, q, v, loss);
    }
  }

  /** The snapshots gain the page left by the new commit. */
  lemma SnapsAfter(H: Hash, L: nat, h: seq<Commit>, c: Commit, log: Log, pid: Path, snaps: map<nat, Page>, q: Page,
                   loss: Loss)
    requires PageId(L, pid) && ValidHistory(h + [c], L) && ValidHistory(h, L) && Touches(c.batch, pid)
    requires SnapsOK(H, L, h, log, pid, snaps, loss) && q.version == c.version
    requires PageSpec(H, L, h + [c], log, pid, q, loss)
    ensures SnapsOK(H, L, h + [c], log, pid, snaps[c.version := q], loss)
  {
    SnapsAfterKeys(h, c, L, pid, snaps, q);
    SnapsAfterSpecs(H, L, h, c, log, pid, snaps, q, loss);
  }

  lemma UptoOld(h: seq<Commit>, c: Commit, L: nat, pid: Path, v: nat)
    requires ValidHistory(h + [c], L) && ValidHistory(h, L) && TouchedAt(h, pid, v)
    ensures v < c.version && Upto(h + [c], v) == Upto(h, v)
  {
    OlderThanNew(h, c, L, pid, v);
    UptoAppend(h, c, v);
  }

  lemma OlderThanNew(h: seq<Commit>, c: Commit, L: nat, pid: Path, v: nat)
    requires ValidHistory(h + [c], L) && ValidHistory(h, L) && TouchedAt(h, pid, v)
    ensures v < c.version
  {
    TouchedBound(h, L, pid, v);
    TouchIsWritten(h, pid, L);
    assert (h + [c])[|h| - 1] == h[|h| - 1] && (h + [c])[|h|] == c;
  }

  /** Untouched pages agree with the longer history as they did with the shorter. */
  lemma SnapsUntouched(H: Hash, L: nat, h: seq<Commit>, c: Commit, log: Log, pid: Path, snaps: map<nat, Page>,
                       loss: Loss)
    requires PageId(L, pid) && ValidHistory(h + [c], L) && ValidHistory(h, L) && !Touches(c.batch, pid)
    requires SnapsOK(H, L, h, log, pid, snaps, loss)
    ensures SnapsOK(H, L, h + [c], log, pid, snaps, loss)
  {
    forall v: nat ensures v in snaps <==> TouchedAt(h + [c], pid, v) {
      TouchedAppend(h, c, L, pid, v);
    }
    forall v: nat | v in snaps ensures PageSpec(H, L, Upto(h + [c], v), log, pid, snaps[v], loss) {
      UptoOld(h, c, L, pid, v);
    }
  }

  lemma CacheAfter(cache: map<CacheKey, Page>, pid: Path, c: Chain, c': Chain, snaps: map<nat, Page>, n: nat, w: nat,
                   q: Page, loss: Loss)
    requires Structure(c, n, c.cur) && Linked(c'.stored) && Evolved(c, c', w) && c'.cur == w && c.cur < w
    requires CacheOK(cache, pid, c, snaps, loss)
    ensures CacheOK((cache - {CacheKey(c.cur, pid)})[CacheKey(w, pid) := q], pid, c', snaps[w := q], loss)
  {
    var cache' := (cache - {CacheKey(c.cur, pid)})[CacheKey(w, pid) := q];
    var snaps' := snaps[w := q];
    forall v | CacheKey(v, pid) in cache' ensures CacheInv(cache'[CacheKey(v, pid)], c', snaps', v, loss) {
      if v != w {
        assert CacheInv(cache[CacheKey(v, pid)], c, snaps, v, loss);
        AtBelow(snaps, w, q, v);
        if Recoverable(c', v) {
          RecoverableBefore(c, c', n, w, v);
        }
      }
    }
  }

  lemma CurBelow(h: seq<Commit>, cm: Commit, L: nat, pid: Path)
    requires ValidHistory(h + [cm], L) && ValidHistory(h, L)
    ensures LastTouch(h, pid) < cm.version
  {
    TouchIsWritten(h, pid, L);
    assert (h + [cm])[|h|] == cm;
    if h != [] { assert (h + [cm])[|h| - 1] == h[|h| - 1]; }
  }

  lemma PageAfterSnaps(H: Hash, L: nat, snaps: map<nat, Page>, log: Log, log': Log,
                       h: seq<Commit>, cm: Commit, pid: Path, p: Page, calls: seq<Call>, loss: Loss)
    requires PageId(L, pid) && ValidHistory(h + [cm], L) && ValidHistory(h, L) && Touches(cm.batch, pid)
    requires SnapsOK(H, L, h, log, pid, snaps, loss) && Extends(log, log')
    requires PageBefore(H, L, h, log, pid, p, loss) && CallsFor(H, L, h, cm, log', pid, calls, loss)
    requires loss.Slotless? ==> Refilled(p, pid, cm.batch)
    ensures Shaped(p, Kind(L, pid)) && calls != []
    ensures var q := Updates(H, p, pid, cm.version, calls, Kind(L, pid));
            PageSpec(H, L, h + [cm], log', pid, q, loss) &&
            SnapsOK(H, L, h + [cm], log', pid, snaps[cm.version := q], loss)
  {
    PageBeforeLog(H, L, h, log, log', pid, p, loss);
    SnapsLog(H, L, h, log, log', pid, snaps, loss);
    SpecAfter(H, L, h, cm, log', pid, p, calls, loss);
    SnapsAfter(H, L, h, cm, log', pid, snaps, Updates(H, p, pid, cm.version, calls, Kind(L, pid)), loss);
  }

  /** One page through a commit: chain, snapshots and cache together. */
  lemma PageAfter(H: Hash, L: nat, c: Chain, snaps: map<nat, Page>, cache: map<CacheKey, Page>, log: Log, log': Log,
                  h: seq<Commit>, cm: Commit, pid: Path, p: Page, calls: seq<Call>, loss: Loss)
    requires PageId(L, pid) && ValidHistory(h + [cm], L) && ValidHistory(h, L) && Touches(cm.batch, pid)
    requires PageOK(H, L, c, snaps, cache, log, h, pid, loss) && Extends(log, log')
    requires PageBefore(H, L, h, log, pid, p, loss) && Shaped(p, Kind(L, pid)) && Same(p, At(snaps, c.cur), loss)
    requires CallsFor(H, L, h, cm, log', pid, calls, loss)
    requires loss.Slotless? ==> Refilled(p, pid, cm.batch)
    requires forall v :: v in snaps ==> v <= c.cur
    ensures var (c', q) := CommitPage(H, c, p, pid, cm.version, calls, Kind(L, pid));
            q == Updates(H, p, pid, cm.version, calls, Kind(L, pid)) &&
            PageSpec(H, L, h + [cm], log', pid, q, loss) &&
            PageOK(H, L, c', snaps[cm.version := q],
                   (cache - {CacheKey(c.cur, pid)})[CacheKey(cm.version, pid) := q], log', h + [cm], pid, loss)
  {
    var n, w := Kind(L, pid), cm.version;
    PageAfterSnaps(H, L, snaps, log, log', h, cm, pid, p, calls, loss);
    CurBelow(h, cm, L, pid);
    CommitKeeps(H, c, snaps, p, pid, c.cur, w, calls, n, loss);
    CommitEvolved(H, c, snaps, p, pid, c.cur, w, calls, n, loss);
    var (c', q) := CommitPage(H, c, p, pid, w, calls, n);
    CacheAfter(cache, pid, c, c', snaps, n, w, q, loss);
    TouchAppend(h, cm, pid);
  }

  /** What one iteration leaves alone. */
  ghost predicate OneFrame(s: State, s': State, pid: Path) {
    && s'.put == s.put && s'.current == s.current && Extends(s.log, s'.log)
    && (forall q :: q != pid ==> ChainOf(s', q) == ChainOf(s, q))
    && (forall k: CacheKey :: k.pid != pid ==>
          (k in s'.cache <==> k in s.cache) && (k in s.cache ==> s'.cache[k] == s.cache[k]))
  }

  lemma RekeyFrame(s: State, w: nat, pid: Path, c: Chain, q: Page, log: Log)
    requires Extends(s.log, log)
    ensures OneFrame(s, Rekey(s, w, pid, c, q, log), pid)
  {
  }

  lemma RekeyInv(H: Hash, L: nat, s: State, g: Snaps, h: seq<Commit>, w: nat, pid: Path, c: Chain, q: Page, log: Log,
                 loss: Loss)
    requires PageId(L, pid)
    requires PageOK(H, L, c, SnapsOf(g, pid)[w := q],
                    (s.cache - {CacheKey(ChainOf(s, pid).cur, pid)})[CacheKey(w, pid) := q], log, h, pid, loss)
    ensures PageInv(H, L, Rekey(s, w, pid, c, q, log), g[pid := SnapsOf(g, pid)[w := q]], h, pid, loss)
  {
  }

  lemma RekeyDone(H: Hash, L: nat, s: State, h: seq<Commit>, cm: Commit, pid: Path, c: Chain, q: Page, log: Log,
                  loss: Loss)
    requires PageId(L, pid) && ValidHistory(h + [cm], L) && Touches(cm.batch, pid)
    requires PageSpec(H, L, h + [cm], log, pid, q, loss)
    ensures ChildDone(H, L, Rekey(s, cm.version, pid, c, q, log), h + [cm], cm.version, pid, loss)
  {
    if !loss.Hashless? {
      RootHashIs(H, L, h + [cm], log, pid, q, loss);
      ContentsAppend(h, cm);
      TouchesSum(Contents(h), cm.batch, pid);
    }
  }

  lemma OldPageOpened(s: State, pid: Path)
    ensures CanOpen(s, pid, OldPage(s, pid))
  {
  }

  /** What the iteration needs of the page it opens. */
  lemma OldPageRefilled(s: State, pid: Path, batch: map<Path, Bytes>, loss: Loss)
    requires RefilledAt(s, pid, batch, loss) && Touches(batch, pid)
    ensures loss.Slotless? ==> Refilled(OldPage(s, pid), pid, batch)
  {
    OldPageOpened(s, pid);
  }

  lemma OldPageReady(H: Hash, L: nat, s: State, g: Snaps, h: seq<Commit>, batch: map<Path, Bytes>, pid: Path,
                     loss: Loss)
    returns (p: Page)
    requires PageId(L, pid) && ValidHistory(h, L) && Touches(batch, pid)
    requires PageInv(H, L, s, g, h, pid, loss) && RefilledAt(s, pid, batch, loss)
    ensures p == OldPage(s, pid) && PageBefore(H, L, h, s.log, pid, p, loss) && Shaped(p, Kind(L, pid))
    ensures Same(p, At(SnapsOf(g, pid), ChainOf(s, pid).cur), loss)
    ensures forall v :: v in SnapsOf(g, pid) ==> v <= ChainOf(s, pid).cur
    ensures loss.Slotless? ==> Refilled(p, pid, batch)
  {
    p := OldPage(s, pid);
    OldPageBefore(H, L, s, g, h, pid, loss);
    OldPageRefilled(s, pid, batch, loss);
  }

  lemma PieceCalls(H: Hash, L: nat, s: State, h: seq<Commit>, cm: Commit, work: Work, loss: Loss)
    returns (calls: seq<Call>, log': Log)
    requires ValidHistory(h + [cm], L) && s.put == cm.batch && WorkFor(L, cm.batch, work)
    requires ChildrenDone(H, L, s, h + [cm], cm.version, work, loss)
    ensures (calls, log') == MakeCalls(s, s.log, cm.version, work.pid, work.nibs) && Extends(s.log, log')
    ensures ValidCalls(calls, Kind(L, work.pid)) && CallsFor(H, L, h, cm, log', work.pid, calls, loss)
  {
    var r := MakeCalls(s, s.log, cm.version, work.pid, work.nibs);
    calls, log' := r.0, r.1;
    WorkCalls(H, L, s, h, cm, work, loss);
  }

  lemma CommitOneIs(H: Hash, L: nat, s: State, w: nat, pid: Path, nibs: seq<Path>, calls: seq<Call>, log: Log,
                    p: Page, c: Chain, q: Page)
    requires OldPage(s, pid) == p && MakeCalls(s, s.log, w, pid, nibs) == (calls, log)
    requires Shaped(p, Kind(L, pid)) && ValidCalls(calls, Kind(L, pid))
    requires (c, q) == CommitPage(H, ChainOf(s, pid), p, pid, w, calls, Kind(L, pid))
    ensures CommitOne(H, L, s, w, pid, nibs) == Rekey(s, w, pid, c, q, log)
  {
  }

  lemma OneAfter(H: Hash, L: nat, s: State, g: Snaps, h: seq<Commit>, cm: Commit, work: Work, loss: Loss)
    returns (c': Chain, q: Page, log': Log)
    requires ValidHistory(h + [cm], L) && ValidHistory(h, L) && s.put == cm.batch
    requires WorkFor(L, cm.batch, work) && ChildrenDone(H, L, s, h + [cm], cm.version, work, loss)
    requires PageInv(H, L, s, g, h, work.pid, loss) && RefilledAt(s, work.pid, cm.batch, loss)
    ensures CommitOne(H, L, s, cm.version, work.pid, work.nibs) == Rekey(s, cm.version, work.pid, c', q, log')
    ensures Extends(s.log, log') && PageSpec(H, L, h + [cm], log', work.pid, q, loss)
    ensures var pid, w := work.pid, cm.version;
            PageOK(H, L, c', SnapsOf(g, pid)[w := q], (s.cache - {CacheKey(ChainOf(s, pid).cur, pid)})
                [CacheKey(w, pid) := q], log', h + [cm], pid, loss)
  {
    var pid, w := work.pid, cm.version;
    var p := OldPageReady(H, L, s, g, h, cm.batch, pid, loss);
    var calls;
    calls, log' := PieceCalls(H, L, s, h, cm, work, loss);
    PageAfter(H, L, ChainOf(s, pid), SnapsOf(g, pid), s.cache, s.log, log', h, cm, pid, p, calls, loss);
    var t := CommitPage(H, ChainOf(s, pid), p, pid, w, calls, Kind(L, pid));
    c', q := t.0, t.1;
    CommitOneIs(H, L, s, w, pid, work.nibs, calls, log', p, c', q);
  }

  /** One iteration of CalcRootHash, once the children of the page are done. */
  lemma OneKeeps(H: Hash, L: nat, s: State, g: Snaps, h: seq<Commit>, cm: Commit, work: Work, loss: Loss)
    requires ValidHistory(h + [cm], L) && ValidHistory(h, L) && s.put == cm.batch
    requires WorkFor(L, cm.batch, work) && ChildrenDone(H, L, s, h + [cm], cm.version, work, loss)
    requires PageInv(H, L, s, g, h, work.pid, loss) && RefilledAt(s, work.pid, cm.batch, loss)
    ensures var s' := CommitOne(H, L, s, cm.version, work.pid, work.nibs);
            OneFrame(s, s', work.pid) && CacheKey(cm.version, work.pid) in s'.cache &&
            var q := s'.cache[CacheKey(cm.version, work.pid)];
            PageInv(H, L, s', g[work.pid := SnapsOf(g, work.pid)[cm.version := q]], h + [cm], work.pid, loss) &&
            ChildDone(H, L, s', h + [cm], cm.version, work.pid, loss)
  {
    var pid, w := work.pid, cm.version;
    var c', q, log' := OneAfter(H, L, s, g, h, cm, work, loss);
    RekeyFrame(s, w, pid, c', q, log');
    RekeyInv(H, L, s, g, h + [cm], w, pid, c', q, log', loss);
    RekeyDone(H, L, s, h, cm, pid, c', q, log', loss);
  }
}
