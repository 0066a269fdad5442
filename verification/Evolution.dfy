/** What a commit may change of a chain: pages are only ever added, under the commit's own
    version, and no version that was lost can become recoverable again. */
module Evolution {
  import opened Types
  import opened Pages
  import opened Chains
  import opened ChainInvariant
  import opened PageCommits
  import opened Loads
  import opened Counting

  ghost predicate Grown(stored: map<Key, Stored>, stored': map<Key, Stored>, w: nat) {
    && (forall k :: k in stored ==> k in stored' && stored'[k] == stored[k])
    && (forall k :: k in stored' ==> k in stored || k.version == w)
  }

  /** b began commit w, c is a later stage of it. */
  ghost predicate Evolved(b: Chain, c: Chain, w: nat) {
    && Grown(b.stored, c.stored, w)
    && (c.frozen == b.frozen || c.frozen == b.frozen + [w])
    && (c.base == b.base || c.base == w)
    && (Key(w, true) in c.stored ==> BaseOf(c.stored, Key(w, true)).version in {b.base, w})
  }

  lemma {:induction false} GrownBase(stored: map<Key, Stored>, stored': map<Key, Stored>, w: nat, k: Key)
    requires Linked(stored) && Linked(stored') && Grown(stored, stored', w) && Refers(stored, k)
    ensures Refers(stored', k) && BaseOf(stored', k) == BaseOf(stored, k)
    decreases k.version, k.delta
  {
    if k.delta {
      assert LinkedAt(stored, k);
      GrownBase(stored, stored', w, stored[k].d.last);
    }
  }

  lemma FreezeEvolved(b: Chain, c: Chain, n: nat, w: nat)
    requires Structure(c, n, w) && Evolved(b, c, w) && w > 0 && w !in c.frozen && w !in b.frozen
    ensures Linked(Freeze(c, w).stored) && Evolved(b, Freeze(c, w), w)
  {
    FreezeLinked(c, w);
  }

  lemma CheckpointEvolved(b: Chain, c: Chain, n: nat, w: nat, p: Page)
    requires Structure(c, n, w) && Evolved(b, c, w) && w > 0 && Key(w, false) !in c.stored && p.version == w
    requires Shaped(p, n)
    ensures Linked(Checkpoint(c, w, p).stored) && Evolved(b, Checkpoint(c, w, p), w)
  {
    CheckpointStructure(c, n, w, p);
    if Key(w, true) in c.stored {
      StoredGrows(c.stored, Key(w, false), Base(p), Key(w, true));
    }
  }

  lemma SettleEvolved(b: Chain, c: Chain, n: nat, w: nat, q: Page)
    requires Structure(c, n, w) && Evolved(b, c, w) && w > 0 && w !in b.frozen && Shaped(q, n) && q.version == w
    requires c.active.count >= TD ==> w !in c.frozen
    requires c.active.bcount >= TB ==> Key(w, false) !in c.stored
    ensures Linked(Settle(c, w, q).stored) && Evolved(b, Settle(c, w, q), w)
  {
    if c.active.count >= TD {
      FreezeEvolved(b, c, n, w);
      FreezeStructure(c, n, w);
      if c.active.bcount >= TB {
        CheckpointEvolved(b, Freeze(c, w), n, w, q);
      }
    } else if c.active.bcount >= TB {
      CheckpointEvolved(b, c, n, w, q);
    }
  }

  lemma StepEvolved(H: Hash, b: Chain, c: Chain, p: Page, pid: Path, w: nat, call: Call, n: nat, m: nat)
    requires n <= 2 && |call.nibbles| == n && Shaped(p, n) && w > 0 && m > 0 && Budget(c, w, m)
    requires Structure(c, n, w) && Evolved(b, c, w) && w !in b.frozen
    ensures var c' := Step(H, c, p, pid, w, call).0; Linked(c'.stored) && Evolved(b, c', w)
  {
    LoggedItems(H, p, pid, w, call);
    UpdatePageShape(H, p, pid, w, call);
    var q := UpdatePage(H, p, pid, w, call);
    LogStructure(c, n, w, Logged(q, w, call));
    SettleEvolved(b, Log(c, Logged(q, w, call)), n, w, q);
  }

  lemma {:induction false} StepsEvolved(H: Hash, b: Chain, c: Chain, snaps: map<nat, Page>, p: Page, pid: Path,
                                        w: nat, calls: seq<Call>, n: nat, loss: Loss)
    requires Shaped(p, n) && w > 0 && ValidCalls(calls, n) && Budget(c, w, |calls|)
    requires Inv(c, snaps[w := p], n, w, loss) && Newest(snaps, w)
    requires Evolved(b, c, w) && w !in b.frozen
    ensures var c' := Steps(H, c, p, pid, w, calls, n).0; Linked(c'.stored) && Evolved(b, c', w)
    decreases |calls|
  {
    if calls != [] {
      var open := snaps[w := p];
      StepKeeps(H, c, open, p, pid, w, calls[0], n, |calls|, loss);
      StepEvolved(H, b, c, p, pid, w, calls[0], n, |calls|);
      StepsUnfold(H, c, p, pid, w, calls, n);
      var (c1, p1) := Step(H, c, p, pid, w, calls[0]);
      assert open[w := p1] == snaps[w := p1];
      StepsEvolved(H, b, c1, snaps, p1, pid, w, calls[1..], n, loss);
    }
  }

  /** A commit only adds pages under its own version. */
  lemma CommitEvolved(H: Hash, c: Chain, snaps: map<nat, Page>, p: Page, pid: Path, top: nat, w: nat,
                      calls: seq<Call>, n: nat, loss: Loss)
    requires Shaped(p, n) && calls != [] && ValidCalls(calls, n) && Counters(c) && top < w
    requires Inv(c, snaps, n, top, loss) && (forall v :: v in snaps ==> v <= top)
    requires Same(p, At(snaps, top), loss)
    ensures var c' := CommitPage(H, c, p, pid, w, calls, n).0; Linked(c'.stored) && Evolved(c, c', w)
  {
    OpenStep(c, snaps, n, top, w, p, loss);
    var open := snaps[w := p];
    if 2 * |calls| + c.active.count >= 2 * TD {
      var c1 := c;
      if c.active.count != 0 {
        c1 := Freeze(c, w);
        FreezeEvolved(c, c, n, w);
        FreezeStructure(c, n, w);
      }
      CurStructure(c1, w, n, w);
      CheckpointEvolved(c, c1.(cur := w), n, w, Updates(H, p, pid, w, calls, n));
    } else {
      assert open[w := p] == open;
      StepsEvolved(H, c, c, open, p, pid, w, calls, n, loss);
    }
  }

  lemma {:induction false} FirstAboveAppend(s: seq<nat>, w: nat, v: nat)
    ensures FirstAbove(s, v).Some? ==> FirstAbove(s + [w], v) == FirstAbove(s, v)
    ensures FirstAbove(s, v).None? ==> FirstAbove(s + [w], v) == if w > v then Some(w) else None
    decreases |s|
  {
    if s == [] {
      assert s + [w] == [w];
      assert [w][1..] == [];
    } else {
      assert (s + [w])[0] == s[0] && (s + [w])[1..] == s[1..] + [w];
      FirstAboveAppend(s[1..], w, v);
    }
  }

  /** A version recoverable after a commit was recoverable before it. */
  lemma RecoverableBefore(b: Chain, c: Chain, n: nat, w: nat, v: nat)
    requires Structure(b, n, w) && Linked(c.stored) && Evolved(b, c, w) && v < w && w !in b.frozen
    requires Recoverable(c, v)
    ensures Recoverable(b, v)
  {
    FirstAboveAppend(b.frozen, w, v);
    FirstAboveIs(b.frozen, v);
    if v < c.base && FirstAbove(b.frozen, v).Some? {
      var r := FirstAbove(b.frozen, v).value;
      GrownBase(b.stored, c.stored, w, Key(r, true));
    }
  }

  /* ---- Loading a page again while its commit runs ---- */

  /** The active page of c still leads to where that of b led, or to a page of commit w. */
  ghost predicate LinkMoved(b: Chain, c: Chain, w: nat) {
    if c.stored == b.stored then c.active.last == b.active.last else c.active.last.version == w
  }

  lemma SettleLink(b: Chain, c: Chain, w: nat, q: Page)
    requires LinkMoved(b, c, w) && Grown(b.stored, c.stored, w)
    requires Key(w, false) !in b.stored && Key(w, true) !in b.stored
    ensures LinkMoved(b, Settle(c, w, q), w)
  {
    assert Key(w, true) in Freeze(c, w).stored;
    if c.active.count >= TD {
      assert Key(w, true) in Settle(c, w, q).stored;
    } else if c.active.bcount >= TB {
      assert Key(w, false) in Settle(c, w, q).stored;
    }
  }

  lemma {:induction false} StepsLink(H: Hash, b: Chain, c: Chain, snaps: map<nat, Page>, p: Page, pid: Path,
                                     w: nat, calls: seq<Call>, n: nat, loss: Loss)
    requires Shaped(p, n) && w > 0 && ValidCalls(calls, n) && Budget(c, w, |calls|)
    requires Inv(c, snaps[w := p], n, w, loss) && Newest(snaps, w)
    requires Evolved(b, c, w) && w !in b.frozen && Key(w, false) !in b.stored && Key(w, true) !in b.stored
    requires LinkMoved(b, c, w)
    ensures LinkMoved(b, Steps(H, c, p, pid, w, calls, n).0, w)
    decreases |calls|
  {
    if calls != [] {
      var open := snaps[w := p];
      StepKeeps(H, c, open, p, pid, w, calls[0], n, |calls|, loss);
      StepEvolved(H, b, c, p, pid, w, calls[0], n, |calls|);
      StepsUnfold(H, c, p, pid, w, calls, n);
      var (c1, p1) := Step(H, c, p, pid, w, calls[0]);
      assert open[w := p1] == snaps[w := p1];
      UpdatePageShape(H, p, pid, w, calls[0]);
      SettleLink(b, Log(c, Logged(p1, w, calls[0])), w, p1);
      StepsLink(H, b, c1, snaps, p1, pid, w, calls[1..], n, loss);
    }
  }

  /** No page of a later version is stored. */
  lemma NothingStoredYet(c: Chain, n: nat, top: nat, w: nat)
    requires Structure(c, n, top) && top < w
    ensures Key(w, false) !in c.stored && Key(w, true) !in c.stored && w !in c.frozen
  {
  }

  lemma CommitLink(H: Hash, c: Chain, snaps: map<nat, Page>, p: Page, pid: Path, top: nat, w: nat,
                   calls: seq<Call>, n: nat, loss: Loss)
    requires Shaped(p, n) && calls != [] && ValidCalls(calls, n) && Counters(c) && top < w
    requires Inv(c, snaps, n, top, loss) && (forall v :: v in snaps ==> v <= top)
    requires Same(p, At(snaps, top), loss)
    ensures LinkMoved(c, CommitPage(H, c, p, pid, w, calls, n).0, w)
  {
    NothingStoredYet(c, n, top, w);
    if 2 * |calls| + c.active.count >= 2 * TD {
      assert Key(w, false) in CommitPage(H, c, p, pid, w, calls, n).0.stored;
    } else {
      OpenStep(c, snaps, n, top, w, p, loss);
      var open := snaps[w := p];
      assert open[w := p] == open;
      StepsLink(H, c, c, open, p, pid, w, calls, n, loss);
    }
  }

  /** A load that starts from a link to a page of version w, none of which is stored. */
  lemma LoadDangling(c: Chain, current: nat, w: nat)
    requires w >= c.base && c.active.last.version == w > 0 && Key(w, false) !in c.stored && Key(w, true) !in c.stored
    ensures LoadPage(c, current, w) == Fault
  {
    assert c.active.last == Key(w, c.active.last.delta);
    assert Start(c, current, w) == ([], c.active.last);
    assert Walk(c.stored, c.active.last) == ([], c.active.last);
  }

  /** While a commit runs, the pages it stores wait to be handed over. A page of the commit
      that leaves the cache before that can be loaded again only if nothing of it is among
      them; otherwise the load fails. */
  lemma LoadDuringCommit(H: Hash, c: Chain, snaps: map<nat, Page>, p: Page, pid: Path, top: nat, w: nat,
                         calls: seq<Call>, n: nat, current: nat, loss: Loss)
    requires Shaped(p, n) && calls != [] && ValidCalls(calls, n) && Counters(c) && top < w
    requires Inv(c, snaps, n, top, loss) && Stamped(snaps) && (forall v :: v in snaps ==> v <= top)
    requires Same(p, At(snaps, top), loss)
    ensures var (c', q) := CommitPage(H, c, p, pid, w, calls, n);
            var l := LoadPage(c'.(stored := c.stored), current, w);
            if c'.stored == c.stored then l.Found? && Same(l.p, q, loss) else l == Fault
  {
    var (c', q) := CommitPage(H, c, p, pid, w, calls, n);
    CommitKeeps(H, c, snaps, p, pid, top, w, calls, n, loss);
    CommitLink(H, c, snaps, p, pid, top, w, calls, n, loss);
    if c'.stored == c.stored {
      assert c'.(stored := c.stored) == c';
      LoadRecoverable(c', snaps[w := q], n, w, current, w, loss);
    } else {
      NothingStoredYet(c, n, top, w);
      LoadDangling(c'.(stored := c.stored), current, w);
    }
  }
}
