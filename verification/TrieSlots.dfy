/** Deepest pages first: in every reachable state the slots of a page name the last commit
    that touched each child page, and carry the child's root hash. */
module TrieSlots {
  import opened Types
  import opened Pages
  import opened Chains
  import opened ValueLog
  import opened History
  import opened PageSpecs
  import opened TrieState
  import opened TrieInvariant
  import opened TrieRuns
  import opened TrieReads

  /** p is the newest page of pid, the one CalcRootHash would start from. */
  ghost predicate IsNewest(s: State, pid: Path, p: Page) {
    forall v :: v == ChainOf(s, pid).cur ==> GetPage(s, v, pid).0 == Found(p)
  }

  lemma FindNewest(H: Hash, L: nat, s: State, h: seq<Commit>, pid: Path, loss: Loss) returns (p: Page)
    requires Agrees(H, L, s, h, loss) && PageId(L, pid) && h != []
    ensures IsNewest(s, pid, p) && ChainOf(s, pid).cur == LastTouch(h, pid) && ValidHistory(h, L)
    ensures if LastTouch(h, pid) == 0 then p == EMPTY_PAGE else PageSpec(H, L, h, s.log, pid, p, loss)
  {
    var g: Snaps :| TrieInv(H, L, s, g, h, loss);
    var v := Latest(h);
    UptoAll(h, v);
    assert PageInv(H, L, s, g, h, pid, loss);
    PathPage(H, L, s, g, h, v, pid, loss);
    p := GetPage(s, ChainOf(s, pid).cur, pid).0.p;
  }

  lemma ChildTouchedLess(h: seq<Commit>, L: nat, pid: Path, i: Nibble, j: Nibble)
    requires ValidHistory(h, L)
    ensures LastTouch(h, pid + [i, j]) <= LastTouch(h, pid)
  {
    assert pid <= pid + [i, j];
    TouchShorter(h, pid, pid + [i, j], L);
  }

  lemma SpecifiedSlot(H: Hash, L: nat, h: seq<Commit>, log: Log, pid: Path, p: Page, i: Nibble, j: Nibble, loss: Loss)
    requires PageId(L, pid) && Kind(L, pid) == 2 && PageSpec(H, L, h, log, pid, p, loss)
    ensures KidSlot(p, i, j).version == LastTouch(h, pid + [i, j])
    ensures !loss.Hashless? ==> KidSlot(p, i, j).hash == ChildHash(H, Contents(h), pid + [i, j], L)
  {
    assert SlotSpec(H, L, h, p, pid, i, j, loss);
  }

  lemma NewestSlot(H: Hash, L: nat, h: seq<Commit>, log: Log, pid: Path, p: Page, i: Nibble, j: Nibble, loss: Loss)
    requires PageId(L, pid) && Kind(L, pid) == 2 && ValidHistory(h, L)
    requires if LastTouch(h, pid) == 0 then p == EMPTY_PAGE else PageSpec(H, L, h, log, pid, p, loss)
    ensures KidSlot(p, i, j).version == LastTouch(h, pid + [i, j])
    ensures !loss.Hashless? && LastTouch(h, pid + [i, j]) > 0 ==>
              KidSlot(p, i, j).hash == ChildHash(H, Contents(h), pid + [i, j], L)
  {
    ChildTouchedLess(h, L, pid, i, j);
    if LastTouch(h, pid) > 0 { SpecifiedSlot(H, L, h, log, pid, p, i, j, loss); }
  }

  lemma NewestSlotOf(H: Hash, L: nat, s: State, h: seq<Commit>, pid: Path, i: Nibble, j: Nibble, loss: Loss)
    returns (p: Page)
    requires Agrees(H, L, s, h, loss) && PageId(L, pid) && Kind(L, pid) == 2 && h != []
    ensures IsNewest(s, pid, p) && KidSlot(p, i, j).version == LastTouch(h, pid + [i, j])
    ensures !loss.Hashless? && LastTouch(h, pid + [i, j]) > 0 ==>
              KidSlot(p, i, j).hash == ChildHash(H, Contents(h), pid + [i, j], L)
  {
    p := FindNewest(H, L, s, h, pid, loss);
    NewestSlot(H, L, h, s.log, pid, p, i, j, loss);
  }

  lemma NewestRootOf(H: Hash, L: nat, s: State, h: seq<Commit>, q: Path) returns (p: Page)
    requires Agrees(H, L, s, h, Lossless) && PageId(L, q) && h != [] && LastTouch(h, q) > 0
    ensures IsNewest(s, q, p) && p.root.Some? && p.root.value.hash == ChildHash(H, Contents(h), q, L)
  {
    p := FindNewest(H, L, s, h, q, Lossless);
    TouchIsWritten(h, q, L);
    RootIsMerkle(H, L, h, s.log, q, p);
  }

  lemma RunCurrent(H: Hash, L: nat, ops: seq<Op>, pid: Path, loss: Loss)
    requires IsRun(H, L, ops, loss) && PageId(L, pid)
    ensures ChainOf(StateAfter(H, L, ops), pid).cur == LastTouch(HistoryAfter(H, L, ops), pid)
  {
    RunAgrees(H, L, ops, loss);
  }

  lemma RunNewestSlot(H: Hash, L: nat, ops: seq<Op>, pid: Path, i: Nibble, j: Nibble, loss: Loss) returns (p: Page)
    requires IsRun(H, L, ops, loss) && PageId(L, pid) && Kind(L, pid) == 2 && HistoryAfter(H, L, ops) != []
    ensures IsNewest(StateAfter(H, L, ops), pid, p)
    ensures var h := HistoryAfter(H, L, ops);
            KidSlot(p, i, j).version == LastTouch(h, pid + [i, j]) &&
            (!loss.Hashless? && LastTouch(h, pid + [i, j]) > 0 ==>
               KidSlot(p, i, j).hash == ChildHash(H, Contents(h), pid + [i, j], L))
  {
    RunAgrees(H, L, ops, loss);
    p := NewestSlotOf(H, L, StateAfter(H, L, ops), HistoryAfter(H, L, ops), pid, i, j, loss);
  }

  lemma RunNewestRoot(H: Hash, L: nat, ops: seq<Op>, q: Path) returns (p: Page)
    requires IsRun(H, L, ops, Lossless) && PageId(L, q) && LastTouch(HistoryAfter(H, L, ops), q) > 0
    ensures IsNewest(StateAfter(H, L, ops), q, p) && p.root.Some?
    ensures p.root.value.hash == ChildHash(H, Contents(HistoryAfter(H, L, ops)), q, L)
  {
    RunAgrees(H, L, ops, Lossless);
    p := NewestRootOf(H, L, StateAfter(H, L, ops), HistoryAfter(H, L, ops), q);
  }

  lemma ChildPageId(L: nat, pid: Path, i: Nibble, j: Nibble)
    requires PageId(L, pid) && Kind(L, pid) == 2
    ensures PageId(L, pid + [i, j])
  {
  }

  /** In every reachable state slot [i, j] of the newest page of pid names the current version
      of the child page, 0 when it was never touched. */
  lemma RunSlotVersion(H: Hash, L: nat, ops: seq<Op>, pid: Path, i: Nibble, j: Nibble, loss: Loss) returns (p: Page)
    requires IsRun(H, L, ops, loss) && PageId(L, pid) && Kind(L, pid) == 2 && HistoryAfter(H, L, ops) != []
    ensures IsNewest(StateAfter(H, L, ops), pid, p)
    ensures KidSlot(p, i, j).version == ChainOf(StateAfter(H, L, ops), pid + [i, j]).cur
  {
    p := RunNewestSlot(H, L, ops, pid, i, j, loss);
    ChildPageId(L, pid, i, j);
    RunCurrent(H, L, ops, pid + [i, j], loss);
  }

  /** And it carries the hash of the child page's root once the child was touched. */
  lemma RunSlotHash(H: Hash, L: nat, ops: seq<Op>, pid: Path, i: Nibble, j: Nibble) returns (p: Page, q: Page)
    requires IsRun(H, L, ops, Lossless) && PageId(L, pid) && Kind(L, pid) == 2 && HistoryAfter(H, L, ops) != []
    requires ChainOf(StateAfter(H, L, ops), pid + [i, j]).cur > 0
    ensures IsNewest(StateAfter(H, L, ops), pid, p) && IsNewest(StateAfter(H, L, ops), pid + [i, j], q)
    ensures q.root.Some? && KidSlot(p, i, j).hash == q.root.value.hash
  {
    ChildPageId(L, pid, i, j);
    RunCurrent(H, L, ops, pid + [i, j], Lossless);
    p := RunNewestSlot(H, L, ops, pid, i, j, Lossless);
    q := RunNewestRoot(H, L, ops, pid + [i, j]);
  }
}
