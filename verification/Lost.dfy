/** Which old versions a commit makes unreadable: exactly when it takes a checkpoint before
    it has frozen a delta page, the versions since the last frozen delta page are lost. That
    happens to a batch too large for two delta pages over an empty one, and to any batch
    when a stale base count lets the checkpoint come before the delta page is full. */
module Lost {
  import opened Types
  import opened Pages
  import opened Replays
  import opened Chains
  import opened ChainInvariant
  import opened PageCommits
  import opened Loads
  import opened Counting
  import opened Evolution

  /** The batch goes straight to a checkpoint. */
  predicate Oversize(c: Chain, calls: seq<Call>) { 2 * |calls| + c.active.count >= 2 * TD }

  /** How many items the calls of one page log until the base count reaches TB. */
  function UntilBase(bcount: nat, n: nat): nat {
    if bcount >= TB then 0 else if n == 0 then TB - bcount else TB - bcount + bcount % 2
  }

  /** How many items m calls log. */
  function ItemsOf(m: nat, n: nat): nat { if n == 0 then m else 2 * m }

  /** A batch of m calls checkpoints the page without having frozen a delta page before:
      at once over an empty delta page, or while logging, before the delta page is full. */
  predicate Uncovered(d: DeltaPage, m: nat, n: nat) {
    if 2 * m + d.count >= 2 * TD then d.count == 0
    else UntilBase(d.bcount, n) <= ItemsOf(m, n) && d.count + UntilBase(d.bcount, n) < TD
  }

  /** The checkpoint comes without a frozen delta page before it, and none was frozen after v. */
  predicate Loses(c: Chain, m: nat, n: nat, v: nat) {
    Uncovered(c.active, m, n) && v >= c.base && FirstAbove(c.frozen, v).None?
  }

  /** While b_update_count_ is in step with the items, only oversize batches do that. */
  lemma SyncedUncoveredIff(c: Chain, m: nat, n: nat)
    requires Linked(c.stored) && Refers(c.stored, c.active.last) && Synced(c) && Counters(c)
    ensures Uncovered(c.active, m, n) <==> m >= TD && c.active.count == 0
  {
  }

  lemma CommitFreezes(H: Hash, c: Chain, p: Page, pid: Path, top: nat, w: nat, calls: seq<Call>, n: nat)
    requires n <= 2 && Shaped(p, n) && calls != [] && Counters(c) && top < w && ValidCalls(calls, n)
    requires Structure(c, n, top) && Synced(c)
    ensures var c' := CommitPage(H, c, p, pid, w, calls, n).0;
            (Oversize(c, calls) ==> c'.base == w) &&
            (c'.base == w ==> (w in c'.frozen <==> !(Oversize(c, calls) && c.active.count == 0)))
  {
    if !Oversize(c, calls) {
      RaiseTop(c, n, top, w);
      StepsSynced(H, c, p, pid, w, calls, n);
    }
  }

  /* ---- The checkpoint of a logged batch ---- */

  /** The delta page frozen at w, if any, leads to the base page b began with. */
  ghost predicate CoveredAt(b: Chain, c: Chain, w: nat) {
    Key(w, true) in c.stored && BaseOf(c.stored, Key(w, true)).version == b.base
  }

  /** A stage of commit w, which began at b. */
  ghost predicate Stage(b: Chain, c: Chain, n: nat, w: nat) {
    Structure(c, n, w) && Evolved(b, c, w) && w !in b.frozen && b.base < w && w > 0
  }

  lemma LogStage(b: Chain, c: Chain, n: nat, w: nat, items: seq<Item>)
    requires Stage(b, c, n, w) && Paired(items, n) && forall i :: 0 <= i < |items| ==> items[i].version == w
    ensures Stage(b, Log(c, items), n, w) && (CoveredAt(b, Log(c, items), w) <==> CoveredAt(b, c, w))
  {
    LogStructure(c, n, w, items);
  }

  /** A delta page frozen before the checkpoint is covered by it, one frozen later is not. */
  lemma FreezeStage(b: Chain, c: Chain, n: nat, w: nat)
    requires Stage(b, c, n, w) && w !in c.frozen
    ensures Stage(b, Freeze(c, w), n, w) && (CoveredAt(b, Freeze(c, w), w) <==> c.base == b.base)
  {
    FreezeEvolved(b, c, n, w);
    FreezeStructure(c, n, w);
    var key := Key(w, true);
    StoredGrows(c.stored, key, Delta(c.active), c.active.last);
    assert LinkedAt(Freeze(c, w).stored, key);
  }

  lemma CheckpointStage(b: Chain, c: Chain, n: nat, w: nat, q: Page)
    requires Stage(b, c, n, w) && Key(w, false) !in c.stored && Shaped(q, n) && q.version == w
    ensures Stage(b, Checkpoint(c, w, q), n, w) && (CoveredAt(b, Checkpoint(c, w, q), w) <==> CoveredAt(b, c, w))
  {
    CheckpointEvolved(b, c, n, w, q);
    CheckpointStructure(c, n, w, q);
    if Key(w, true) in c.stored { StoredGrows(c.stored, Key(w, false), Base(q), Key(w, true)); }
  }

  /** With no checkpoint yet, whatever was frozen is covered. */
  lemma FrozenIsCovered(b: Chain, c: Chain, n: nat, w: nat)
    requires Stage(b, c, n, w) && c.base == b.base
    ensures CoveredAt(b, c, w) <==> w in c.frozen
  {
    if w in c.frozen { SentinelBase(c, n, w, w); }
  }

  lemma SettleStage(b: Chain, c: Chain, n: nat, w: nat, q: Page)
    requires Stage(b, c, n, w) && Shaped(q, n) && q.version == w
    requires c.active.count >= TD ==> w !in c.frozen
    requires c.active.bcount >= TB ==> Key(w, false) !in c.stored
    ensures var c' := Settle(c, w, q);
            Stage(b, c', n, w) && (c.base == w ==> (CoveredAt(b, c', w) <==> CoveredAt(b, c, w))) &&
            (c.base == b.base ==> (CoveredAt(b, c', w) <==> w in c.frozen || c.active.count >= TD))
  {
    FrozenWhenBase(b, c, n, w);
    var c1 := c;
    if c.active.count >= TD {
      FreezeStage(b, c, n, w);
      c1 := Freeze(c, w);
    }
    if c1.active.bcount >= TB {
      CheckpointStage(b, c1, n, w, q);
    } else {
      CurStructure(c1, w, n, w);
    }
  }

  lemma FrozenWhenBase(b: Chain, c: Chain, n: nat, w: nat)
    requires Stage(b, c, n, w)
    ensures c.base == b.base ==> (CoveredAt(b, c, w) <==> w in c.frozen)
    ensures w !in c.frozen ==> !CoveredAt(b, c, w)
  {
    if c.base == b.base { FrozenIsCovered(b, c, n, w); }
  }

  ghost predicate Counted(c: Chain, c': Chain, w: nat, count: nat, bcount: nat) {
    && c'.active.count == (if count >= TD then 0 else count)
    && c'.active.bcount == (if bcount >= TB then 0 else bcount)
    && c'.base == (if bcount >= TB then w else c.base)
    && (w in c'.frozen <==> w in c.frozen || count >= TD)
    && (Key(w, false) in c'.stored <==> Key(w, false) in c.stored || bcount >= TB)
  }

  lemma SettleCounts(c: Chain, w: nat, q: Page)
    ensures Counted(c, Settle(c, w, q), w, c.active.count, c.active.bcount)
  {
  }

  /** What one logged call does to a stage, and to whether the checkpoint is covered. */
  ghost predicate Stepped(b: Chain, c: Chain, c': Chain, n: nat, w: nat, m: nat) {
    Stage(b, c', n, w) && Budget(c', w, m) &&
    Counted(c, c', w, c.active.count + Width(n), c.active.bcount + Width(n)) &&
    (c.base == w ==> (CoveredAt(b, c', w) <==> CoveredAt(b, c, w))) &&
    (c.base == b.base ==> (CoveredAt(b, c', w) <==> w in c.frozen || c.active.count + Width(n) >= TD))
  }

  lemma LogSettles(b: Chain, c: Chain, n: nat, w: nat, m: nat, items: seq<Item>, q: Page)
    requires n <= 2 && m > 0 && Budget(c, w, m) && Stage(b, c, n, w) && Shaped(q, n) && q.version == w
    requires Paired(items, n) && |items| == Width(n) && forall i :: 0 <= i < |items| ==> items[i].version == w
    ensures Stepped(b, c, Settle(Log(c, items), w, q), n, w, m - 1)
  {
    var c1 := Log(c, items);
    LogStage(b, c, n, w, items);
    SettleStage(b, c1, n, w, q);
    SettleCounts(c1, w, q);
  }

  lemma StepStage(H: Hash, b: Chain, c: Chain, p: Page, pid: Path, w: nat, call: Call, n: nat, m: nat)
    requires n <= 2 && |call.nibbles| == n && Shaped(p, n) && m > 0 && Budget(c, w, m) && Stage(b, c, n, w)
    ensures Stepped(b, c, Step(H, c, p, pid, w, call).0, n, w, m - 1)
  {
    LoggedItems(H, p, pid, w, call);
    UpdatePageShape(H, p, pid, w, call);
    var q := UpdatePage(H, p, pid, w, call);
    LogSettles(b, c, n, w, m, Logged(q, w, call), q);
  }

  /** After the checkpoint nothing changes any more. */
  lemma {:induction false} StepsAfter(H: Hash, b: Chain, c: Chain, p: Page, pid: Path, w: nat, calls: seq<Call>, n: nat)
    requires Shaped(p, n) && ValidCalls(calls, n) && Budget(c, w, |calls|) && Stage(b, c, n, w) && c.base == w
    ensures var c' := Steps(H, c, p, pid, w, calls, n).0;
            Stage(b, c', n, w) && c'.base == w && (CoveredAt(b, c', w) <==> CoveredAt(b, c, w))
    decreases |calls|
  {
    if calls != [] {
      StepStage(H, b, c, p, pid, w, calls[0], n, |calls|);
      StepsUnfold(H, c, p, pid, w, calls, n);
      var (c1, p1) := Step(H, c, p, pid, w, calls[0]);
      StepsAfter(H, b, c1, p1, pid, w, calls[1..], n);
    }
  }

  /** The recursion of UntilBase and of the covering condition over one logged call. */
  lemma OneCallCounts(count: nat, bcount: nat, m: nat, n: nat)
    requires bcount < TB && count < TD && m > 0
    ensures var e := Width(n);
            if bcount + e >= TB then UntilBase(bcount, n) == e <= ItemsOf(m, n)
            else UntilBase(bcount, n) == UntilBase(bcount + e, n) + e && ItemsOf(m, n) == ItemsOf(m - 1, n) + e
  {
  }

  /** What StepsCovered says of a stage c with m calls to come and the stage c' they lead to. */
  ghost predicate CoveredLater(b: Chain, c: Chain, c': Chain, n: nat, w: nat, m: nat) {
    var due := UntilBase(c.active.bcount, n);
    c'.base == (if due <= ItemsOf(m, n) then w else b.base) &&
    (c'.base == w ==> (CoveredAt(b, c', w) <==> w in c.frozen || c.active.count + due >= TD))
  }

  lemma CoveredNow(b: Chain, c: Chain, c1: Chain, c': Chain, n: nat, w: nat, m: nat)
    requires m > 0 && Counters(c) && Stage(b, c1, n, w) && Stage(b, c', n, w) && c1.base == w == c'.base
    requires c.active.bcount + Width(n) >= TB
    requires CoveredAt(b, c1, w) <==> w in c.frozen || c.active.count + Width(n) >= TD
    requires CoveredAt(b, c', w) <==> CoveredAt(b, c1, w)
    ensures CoveredLater(b, c, c', n, w, m)
  {
    OneCallCounts(c.active.count, c.active.bcount, m, n);
  }

  lemma CoveredSoon(b: Chain, c: Chain, c1: Chain, c': Chain, n: nat, w: nat, m: nat)
    requires m > 0 && Counters(c) && Counters(c1) && Stage(b, c', n, w)
    requires c.active.bcount + Width(n) < TB && c1.active.bcount == c.active.bcount + Width(n)
    requires c1.active.count == if c.active.count + Width(n) >= TD then 0 else c.active.count + Width(n)
    requires w in c1.frozen <==> w in c.frozen || c.active.count + Width(n) >= TD
    requires CoveredLater(b, c1, c', n, w, m - 1)
    ensures CoveredLater(b, c, c', n, w, m)
  {
    OneCallCounts(c.active.count, c.active.bcount, m, n);
  }

  /** A logged batch reaches its checkpoint exactly if it logs enough items, and the
      checkpoint is covered exactly if the delta page is full by then. */
  lemma {:induction false} StepsCovered(H: Hash, b: Chain, c: Chain, p: Page, pid: Path, w: nat, calls: seq<Call>,
                                        n: nat)
    requires Shaped(p, n) && ValidCalls(calls, n) && Budget(c, w, |calls|) && Stage(b, c, n, w) && c.base == b.base
    ensures var c' := Steps(H, c, p, pid, w, calls, n).0;
            Stage(b, c', n, w) && CoveredLater(b, c, c', n, w, |calls|)
    decreases |calls|
  {
    if calls != [] {
      StepStage(H, b, c, p, pid, w, calls[0], n, |calls|);
      StepsUnfold(H, c, p, pid, w, calls, n);
      var (c1, p1) := Step(H, c, p, pid, w, calls[0]);
      var c' := Steps(H, c, p, pid, w, calls, n).0;
      if c1.base == w {
        StepsAfter(H, b, c1, p1, pid, w, calls[1..], n);
        CoveredNow(b, c, c1, c', n, w, |calls|);
      } else {
        StepsCovered(H, b, c1, p1, pid, w, calls[1..], n);
        CoveredSoon(b, c, c1, c', n, w, |calls|);
      }
    }
  }

  /* ---- Any batch ---- */

  lemma OversizeCovered(H: Hash, c: Chain, p: Page, pid: Path, w: nat, calls: seq<Call>, n: nat)
    requires Shaped(p, n) && ValidCalls(calls, n) && calls != [] && Stage(c, c, n, w) && Oversize(c, calls)
    ensures var c' := CommitPage(H, c, p, pid, w, calls, n).0;
            Stage(c, c', n, w) && c'.base == w && (CoveredAt(c, c', w) <==> c.active.count != 0)
  {
    var c1 := c;
    if c.active.count != 0 {
      FreezeStage(c, c, n, w);
      c1 := Freeze(c, w);
    }
    CurStructure(c1, w, n, w);
    CheckpointStage(c, c1.(cur := w), n, w, Updates(H, p, pid, w, calls, n));
  }

  /** A commit moves the base to its own version without a covering delta page exactly if it
      is Uncovered. */
  lemma CommitCovered(H: Hash, c: Chain, p: Page, pid: Path, top: nat, w: nat, calls: seq<Call>, n: nat)
    requires Shaped(p, n) && calls != [] && ValidCalls(calls, n) && Counters(c) && top < w && Structure(c, n, top)
    ensures var c' := CommitPage(H, c, p, pid, w, calls, n).0;
            Stage(c, c', n, w) && (c'.base == c.base || c'.base == w) &&
            (Uncovered(c.active, |calls|, n) <==> c'.base == w && !CoveredAt(c, c', w))
  {
    RaiseTop(c, n, top, w);
    if Oversize(c, calls) {
      OversizeCovered(H, c, p, pid, w, calls, n);
    } else {
      StepsCovered(H, c, c, p, pid, w, calls, n);
    }
  }

  lemma SentinelKept(b: Chain, c: Chain, n: nat, w: nat, v: nat, r: nat)
    requires Structure(b, n, w) && Linked(c.stored) && Evolved(b, c, w) && FirstAbove(b.frozen, v) == Some(r)
    ensures FirstAbove(c.frozen, v) == Some(r) && Key(r, true) in b.stored && Key(r, true) in c.stored
    ensures BaseOf(c.stored, Key(r, true)) == BaseOf(b.stored, Key(r, true))
  {
    FirstAboveAppend(b.frozen, w, v);
    FirstAboveIs(b.frozen, v);
    GrownBase(b.stored, c.stored, w, Key(r, true));
  }

  /** No frozen chain starts from a base page newer than the last checkpoint. */
  lemma SentinelBase(c: Chain, n: nat, top: nat, r: nat)
    requires Structure(c, n, top) && Key(r, true) in c.stored
    ensures BaseOf(c.stored, Key(r, true)).version <= c.base
  {
    BaseRefers(c.stored, Key(r, true));
  }

  lemma CoveredIsKept(b: Chain, c: Chain, n: nat, w: nat, v: nat)
    requires Stage(b, c, n, w) && Structure(b, n, w) && b.base <= v < w && FirstAbove(b.frozen, v).None? && c.base == w
    ensures Recoverable(c, v) <==> CoveredAt(b, c, w)
  {
    FirstAboveAppend(b.frozen, w, v);
    FirstAboveIs(b.frozen, v);
  }

  lemma StageLosesIff(b: Chain, c: Chain, n: nat, w: nat, v: nat)
    requires Stage(b, c, n, w) && Structure(b, n, w) && (c.base == b.base || c.base == w) && v < w && Recoverable(b, v)
    ensures Recoverable(c, v) <==>
            !(c.base == w && !CoveredAt(b, c, w) && v >= b.base && FirstAbove(b.frozen, v).None?)
  {
    if v >= c.base {
    } else if v >= b.base && FirstAbove(b.frozen, v).None? {
      CoveredIsKept(b, c, n, w, v);
    } else {
      var r := FirstAbove(b.frozen, v).value;
      SentinelKept(b, c, n, w, v, r);
      if v >= b.base { SentinelBase(b, n, w, r); }
    }
  }

  /** A version readable before a commit is unreadable after it if and only if the commit is
      Uncovered, the version is not older than the last checkpoint, and no delta page was
      frozen since. The counts may be stale. */
  lemma CommitLosesIff(H: Hash, c: Chain, p: Page, pid: Path, top: nat, w: nat, calls: seq<Call>, n: nat, v: nat)
    requires Shaped(p, n) && calls != [] && ValidCalls(calls, n) && Counters(c) && top < w
    requires Structure(c, n, top) && v < w && Recoverable(c, v)
    ensures var c' := CommitPage(H, c, p, pid, w, calls, n).0;
            Linked(c'.stored) && (Recoverable(c', v) <==> !Loses(c, |calls|, n, v))
  {
    CommitCovered(H, c, p, pid, top, w, calls, n);
    RaiseTop(c, n, top, w);
    StageLosesIff(c, CommitPage(H, c, p, pid, w, calls, n).0, n, w, v);
  }

  /* ---- A concrete input ---- */

  /** After a checkpoint over an empty delta page a load of any earlier version that no
      delta page was frozen after answers the checkpoint itself. */
  lemma CheckpointAnswers(c: Chain, current: nat, v: nat, p: Page)
    requires c.active.items == [] && c.active.last == Key(c.base, false) && v < c.base
    requires c.frozen == [] || (FirstAbove(c.frozen, v).None? && Key(current, true) !in c.stored)
    requires Key(c.base, false) in c.stored && c.stored[Key(c.base, false)] == Base(p) && p.version >= v
    ensures LoadPage(c, current, v) == Found(p)
  {
    assert Start(c, current, v) == ([], c.active.last);
    assert [] + [] + [c.active] == [c.active];
    assert [c.active][1..] == [];
    assert ReplayDeltas(p, [c.active], v) == ReplayDeltas(ApplyDelta(p, [], v), [], v);
  }

  /** What an oversize batch over an empty delta page leaves. */
  lemma OversizeCommit(H: Hash, c: Chain, p: Page, pid: Path, w: nat, calls: seq<Call>, n: nat)
    requires n <= 2 && Shaped(p, n) && ValidCalls(calls, n) && calls != []
    requires Oversize(c, calls) && c.active.count == 0 && c.active.items == []
    ensures var (c', q) := CommitPage(H, c, p, pid, w, calls, n);
            Shaped(q, n) && q.version == w && c'.active.count == 0 && c'.active.items == [] &&
            c'.active.last == Key(w, false) && c'.base == w && c'.frozen == c.frozen &&
            c'.stored == c.stored[Key(w, false) := Base(q)]
  {
  }

  lemma LoadAtCheckpoint(c: Chain, current: nat, p: Page)
    requires c.active.items == [] && c.active.last == Key(c.base, false) && p.version == c.base > 0
    requires Key(c.base, false) in c.stored && c.stored[Key(c.base, false)] == Base(p)
    ensures LoadPage(c, current, c.base) == Found(p)
  {
    assert Start(c, current, c.base) == ([], c.active.last);
    assert [] + [] + [c.active] == [c.active];
    assert [c.active][1..] == [];
    assert ReplayDeltas(p, [c.active], c.base) == ReplayDeltas(ApplyDelta(p, [], c.base), [], c.base);
  }

  /** Two batches of 128 calls or more: the page of version 1 is there after the first, and
      after the second a load of version 1 answers the page of version 2. */
  lemma HistoryLost(H: Hash, pid: Path, first: seq<Call>, second: seq<Call>, n: nat)
    requires ValidCalls(first, n) && ValidCalls(second, n) && |first| >= TD && |second| >= TD
    ensures var (c1, p1) := CommitPage(H, NEW_CHAIN, EMPTY_PAGE, pid, 1, first, n);
            Shaped(p1, n) && p1.version == 1 && LoadPage(c1, 1, 1) == Found(p1) &&
            var (c2, p2) := CommitPage(H, c1, p1, pid, 2, second, n);
            p2.version == 2 && LoadPage(c2, 2, 1) == Found(p2)
  {
    OversizeCommit(H, NEW_CHAIN, EMPTY_PAGE, pid, 1, first, n);
    var (c1, p1) := CommitPage(H, NEW_CHAIN, EMPTY_PAGE, pid, 1, first, n);
    LoadAtCheckpoint(c1, 1, p1);
    OversizeCommit(H, c1, p1, pid, 2, second, n);
    var (c2, p2) := CommitPage(H, c1, p1, pid, 2, second, n);
    CheckpointAnswers(c2, 2, 1, p2);
  }
}
