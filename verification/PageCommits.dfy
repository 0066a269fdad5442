/** Committing a batch to one page keeps the chain invariant: at most one delta page and
    one checkpoint are stored per commit, so stored page keys never collide. */
module PageCommits {
  import opened Types
  import opened Pages
  import opened Replays
  import opened Chains
  import opened ChainInvariant

  /** What m more updates in commit w may still add: never a second delta page at w,
      never a second checkpoint at w. */
  ghost predicate Budget(c: Chain, w: nat, m: nat) {
    && c.active.count < TD && c.active.bcount < TB
    && c.active.count + 2 * m < 2 * TD
    && (w in c.frozen ==> c.active.count + 2 * m < TD)
    && (Key(w, false) in c.stored ==> c.active.bcount + 2 * m < TB)
  }

  /** Counters of a chain between commits. */
  ghost predicate Counters(c: Chain) {
    c.active.count < TD && c.active.bcount < TB
  }

  /** snaps holds a page for w and for nothing later. */
  ghost predicate Newest(snaps: map<nat, Page>, w: nat) {
    w in snaps && forall v :: v in snaps ==> v <= w
  }

  lemma LoggedItems(H: Hash, p: Page, pid: Path, w: nat, call: Call)
    requires ValidCall(call, |call.nibbles|) && Shaped(p, |call.nibbles|)
    ensures var q := UpdatePage(H, p, pid, w, call);
            Shaped(q, |call.nibbles|) && q.root.Some? && (|call.nibbles| > 0 ==> call.nibbles[0] in q.kids) &&
            var items := Logged(q, w, call);
            Paired(items, |call.nibbles|) && 1 <= |items| <= 2 && |items| == Width(|call.nibbles|) &&
            forall i :: 0 <= i < |items| ==> items[i].version == w
  {
    UpdatePageShape(H, p, pid, w, call);
    var q := UpdatePage(H, p, pid, w, call);
    var items := Logged(q, w, call);
    if |call.nibbles| == 0 {
      assert items[1..] == [];
    } else {
      assert items[2..] == [];
    }
  }

  lemma StepLogs(H: Hash, c: Chain, snaps: map<nat, Page>, p: Page, pid: Path, w: nat, call: Call, n: nat, loss: Loss)
    requires n <= 2 && |call.nibbles| == n && Shaped(p, n)
    requires Inv(c, snaps, n, w, loss) && Newest(snaps, w) && Same(p, snaps[w], loss)
    ensures var q := UpdatePage(H, p, pid, w, call);
            Shaped(q, n) && q.root.Some? && (n > 0 ==> call.nibbles[0] in q.kids) &&
            Inv(Log(c, Logged(q, w, call)), snaps[w := q], n, w, loss)
  {
    LoggedItems(H, p, pid, w, call);
    var q := UpdatePage(H, p, pid, w, call);
    var items := Logged(q, w, call);
    ReplayRefinesUpdate(H, p, pid, w, call);
    SameWeaken(Replay(p, items), q, loss);
    ReplayAll(p, items, w);
    ReplayAll(snaps[w], items, w);
    SameDelta(p, snaps[w], items, items, w, loss);
    LogStep(c, snaps, n, w, items, q, loss);
  }

  /** One UpdatePage call with a delta page. */
  lemma StepKeeps(H: Hash, c: Chain, snaps: map<nat, Page>, p: Page, pid: Path, w: nat, call: Call, n: nat, m: nat,
                  loss: Loss)
    requires n <= 2 && |call.nibbles| == n && Shaped(p, n) && w > 0 && m > 0 && Budget(c, w, m)
    requires Inv(c, snaps, n, w, loss) && Newest(snaps, w) && Same(p, snaps[w], loss)
    ensures var (c', q) := Step(H, c, p, pid, w, call);
            q == UpdatePage(H, p, pid, w, call) && Shaped(q, n) && c'.cur == w &&
            Inv(c', snaps[w := q], n, w, loss) && Budget(c', w, m - 1)
  {
    LoggedItems(H, p, pid, w, call);
    StepLogs(H, c, snaps, p, pid, w, call, n, loss);
    var q := UpdatePage(H, p, pid, w, call);
    UpdatePageShape(H, p, pid, w, call);
    SettleKeeps(Log(c, Logged(q, w, call)), snaps[w := q], n, w, q, loss);
  }

  /** Freezing and checkpointing keep the invariant, if neither page is there yet. */
  lemma SettleKeeps(c: Chain, snaps: map<nat, Page>, n: nat, w: nat, q: Page, loss: Loss)
    requires n <= 2 && Inv(c, snaps, n, w, loss) && Newest(snaps, w) && snaps[w] == q
    requires w > 0 && Shaped(q, n) && q.version == w
    requires c.active.count >= TD ==> w !in c.frozen
    requires c.active.bcount >= TB ==> Key(w, false) !in c.stored
    ensures Inv(Settle(c, w, q), snaps, n, w, loss) && Settle(c, w, q).cur == w
  {
    var c2 := c;
    if c.active.count >= TD {
      c2 := Freeze(c, w);
      FreezeStep(c, snaps, n, w, loss);
    }
    if c2.active.bcount >= TB {
      CheckpointStep(c2, snaps, n, w, q, loss);
    } else {
      CurIrrelevant(c2, w, snaps, n, loss);
    }
  }

  lemma CurIrrelevant(c: Chain, cur: nat, snaps: map<nat, Page>, n: nat, loss: Loss)
    requires Inv(c, snaps, n, cur, loss)
    ensures Inv(c.(cur := cur), snaps, n, cur, loss)
  {
    var c' := c.(cur := cur);
    assert FullLog(c') == FullLog(c);
  }

  predicate ValidCalls(calls: seq<Call>, n: nat) {
    n <= 2 && forall i :: 0 <= i < |calls| ==> |calls[i].nibbles| == n
  }

  /** The first step of a fold and the rest of it. */
  lemma StepsUnfold(H: Hash, c: Chain, p: Page, pid: Path, w: nat, calls: seq<Call>, n: nat)
    requires Shaped(p, n) && calls != [] && ValidCalls(calls, n)
    ensures var (c1, p1) := Step(H, c, p, pid, w, calls[0]);
            Shaped(p1, n) && ValidCalls(calls[1..], n) &&
            Steps(H, c, p, pid, w, calls, n) == Steps(H, c1, p1, pid, w, calls[1..], n) &&
            Updates(H, p, pid, w, calls, n) == Updates(H, p1, pid, w, calls[1..], n)
  {
    UpdatePageShape(H, p, pid, w, calls[0]);
  }

  lemma {:induction false} StepsIsUpdates(H: Hash, c: Chain, p: Page, pid: Path, w: nat, calls: seq<Call>, n: nat)
    requires Shaped(p, n) && ValidCalls(calls, n)
    ensures Steps(H, c, p, pid, w, calls, n).1 == Updates(H, p, pid, w, calls, n)
    decreases |calls|
  {
    if calls != [] {
      StepsUnfold(H, c, p, pid, w, calls, n);
      var (c1, p1) := Step(H, c, p, pid, w, calls[0]);
      StepsIsUpdates(H, c1, p1, pid, w, calls[1..], n);
    }
  }

  /** The chain after the calls, with q the page as it stands. */
  ghost predicate Kept(c: Chain, snaps: map<nat, Page>, q: Page, n: nat, w: nat, loss: Loss) {
    c.cur == w && Counters(c) && Inv(c, snaps[w := q], n, w, loss)
  }

  lemma {:induction false} StepsKeep(H: Hash, c: Chain, snaps: map<nat, Page>, p: Page, pid: Path, w: nat,
                                     calls: seq<Call>, n: nat, loss: Loss)
    requires Shaped(p, n) && w > 0 && calls != [] && ValidCalls(calls, n) && Budget(c, w, |calls|)
    requires Inv(c, snaps, n, w, loss) && Newest(snaps, w) && Same(p, snaps[w], loss)
    ensures Kept(Steps(H, c, p, pid, w, calls, n).0, snaps, Steps(H, c, p, pid, w, calls, n).1, n, w, loss)
    decreases |calls|, 0
  {
    StepKeeps(H, c, snaps, p, pid, w, calls[0], n, |calls|, loss);
    StepsUnfold(H, c, p, pid, w, calls, n);
    var (c1, p1) := Step(H, c, p, pid, w, calls[0]);
    StepsKeepOn(H, c1, snaps, p1, pid, w, calls[1..], n, loss);
  }

  lemma {:induction false} StepsKeepOn(H: Hash, c: Chain, snaps: map<nat, Page>, p: Page, pid: Path, w: nat,
                                       calls: seq<Call>, n: nat, loss: Loss)
    requires Shaped(p, n) && w > 0 && ValidCalls(calls, n) && Budget(c, w, |calls|) && c.cur == w
    requires Inv(c, snaps[w := p], n, w, loss) && Newest(snaps, w)
    ensures Kept(Steps(H, c, p, pid, w, calls, n).0, snaps, Steps(H, c, p, pid, w, calls, n).1, n, w, loss)
    decreases |calls|, 1
  {
    if calls != [] {
      var snaps1 := snaps[w := p];
      StepsKeep(H, c, snaps1, p, pid, w, calls, n, loss);
      var q := Steps(H, c, p, pid, w, calls, n).1;
      assert snaps1[w := q] == snaps[w := q];
    }
  }

  /** Committing calls to a page keeps its chain rebuilding every version it could rebuild,
      now including w, by either route of CalcRootHash. */
  lemma CommitKeeps(H: Hash, c: Chain, snaps: map<nat, Page>, p: Page, pid: Path, top: nat, w: nat, calls: seq<Call>,
                    n: nat, loss: Loss)
    requires n <= 2 && Shaped(p, n) && calls != [] && Counters(c) && top < w
    requires forall i :: 0 <= i < |calls| ==> |calls[i].nibbles| == n
    requires Inv(c, snaps, n, top, loss) && (forall v :: v in snaps ==> v <= top)
    requires Same(p, At(snaps, top), loss)
    ensures var (c', q) := CommitPage(H, c, p, pid, w, calls, n);
            q == Updates(H, p, pid, w, calls, n) && c'.cur == w && Counters(c') &&
            Inv(c', snaps[w := q], n, w, loss)
  {
    OpenStep(c, snaps, n, top, w, p, loss);
    var open := snaps[w := p];
    var q := Updates(H, p, pid, w, calls, n);
    assert open[w := q] == snaps[w := q];
    if 2 * |calls| + c.active.count >= 2 * TD {
      OversizeKeeps(c, open, n, top, w, q, loss);
    } else {
      BudgetBefore(c, n, top, w, |calls|);
      StepsKeep(H, c, open, p, pid, w, calls, n, loss);
      StepsIsUpdates(H, c, p, pid, w, calls, n);
    }
  }

  /** Nothing of a later version is stored, so there is room for one commit. */
  lemma BudgetBefore(c: Chain, n: nat, top: nat, w: nat, m: nat)
    requires Structure(c, n, top) && top < w && Counters(c) && 2 * m + c.active.count < 2 * TD
    ensures Budget(c, w, m)
  {
  }

  /** The route without a delta page. */
  lemma OversizeKeeps(c: Chain, open: map<nat, Page>, n: nat, top: nat, w: nat, q: Page, loss: Loss)
    requires Inv(c, open, n, w, loss) && Structure(c, n, top) && top < w && Counters(c)
    requires Shaped(q, n) && q.version == w && forall v :: v in open ==> v <= w
    ensures var c1 := if c.active.count != 0 then Freeze(c, w) else c;
            Inv(Checkpoint(c1.(cur := w), w, q), open[w := q], n, w, loss) &&
            Counters(Checkpoint(c1.(cur := w), w, q))
  {
    var c1 := c;
    if c.active.count != 0 {
      c1 := Freeze(c, w);
      FreezeStep(c, open, n, w, loss);
    }
    CurIrrelevant(c1, w, open, n, loss);
    OversizeStep(c1.(cur := w), open, n, w, q, loss);
  }
}
