/** The counters of delta pages: what update_count_ and b_update_count_ count over any
    run of commits, and what copying a page through a file does to a chain. */
module Counting {
  import opened Types
  import opened Pages
  import opened Replays
  import opened Chains
  import opened ChainInvariant
  import opened PageCommits
  import opened Loads

  /** Inside commit w a checkpoint at w comes with a delta page frozen at w. */
  ghost predicate SyncedIn(c: Chain, w: nat) {
    Synced(c) && (c.base == w ==> w in c.frozen)
  }

  lemma {:induction false} PairedEven(s: seq<Item>, n: nat)
    requires Paired(s, n)
    ensures |s| % Width(n) == 0
    decreases |s|
  {
    if s != [] && n > 0 {
      PairedEven(s[2..], n);
    }
  }

  /** Every frozen chain is older than the delta page at its head and newer than its base. */
  ghost predicate AllSynced(stored: map<Key, Stored>) {
    forall r: nat :: Key(r, true) in stored ==> SyncedAt(stored, r)
  }

  lemma FreezeSynced(c: Chain, n: nat, w: nat)
    requires Structure(c, n, w) && w > 0 && w !in c.frozen && c.base < w
    requires NoOlder(FullLog(c), c.base) && AllSynced(c.stored)
    ensures Structure(Freeze(c, w), n, w) && AllSynced(Freeze(c, w).stored)
    ensures FullLog(Freeze(c, w)) == FullLog(c)
  {
    var c' := Freeze(c, w);
    var key := Key(w, true);
    FreezeStructure(c, n, w);
    StoredGrows(c.stored, key, Delta(c.active), c.active.last);
    assert LinkedAt(c'.stored, key);
    forall r: nat | Key(r, true) in c'.stored ensures SyncedAt(c'.stored, r) {
      if r != w {
        assert SyncedAt(c.stored, r);
        StoredGrows(c.stored, key, Delta(c.active), Key(r, true));
      }
    }
  }

  lemma CheckpointSynced(c: Chain, n: nat, w: nat, p: Page)
    requires Structure(c, n, w) && w > 0 && Key(w, false) !in c.stored && Shaped(p, n) && p.version == w
    requires c.active.items == [] && AllSynced(c.stored)
    ensures Structure(Checkpoint(c, w, p), n, w) && Synced(Checkpoint(c, w, p))
  {
    var c' := Checkpoint(c, w, p);
    CheckpointStructure(c, n, w, p);
    assert FullLog(c') == [];
    forall r: nat | Key(r, true) in c'.stored ensures SyncedAt(c'.stored, r) {
      assert SyncedAt(c.stored, r);
      StoredGrows(c.stored, Key(w, false), Base(p), Key(r, true));
    }
  }

  lemma CurSynced(c: Chain, cur: nat, n: nat, top: nat)
    requires Structure(c, n, top) && Synced(c)
    ensures Structure(c.(cur := cur), n, top) && Synced(c.(cur := cur))
  {
    assert FullLog(c.(cur := cur)) == FullLog(c);
  }

  lemma CountArithmetic(count: nat, b: nat, e: nat)
    requires count < TD && b < TB && b % TD == count && 1 <= e <= 2 && count % e == 0
    ensures (b + e) % TD == (count + e) % TD && count + e <= TD
    ensures b + e >= TB ==> count + e == TD
  {
  }

  /** The counters just after logging, before any freeze. */
  ghost predicate Logging(c: Chain, n: nat, w: nat) {
    Structure(c, n, w) && AllSynced(c.stored) && NoOlder(FullLog(c), c.base) &&
    c.active.bcount == |FullLog(c)| && c.active.bcount % TD == c.active.count % TD &&
    c.active.count <= TD && (c.active.bcount >= TB ==> c.active.count == TD)
  }

  lemma LogSynced(c: Chain, n: nat, w: nat, items: seq<Item>)
    requires n <= 2 && Structure(c, n, w) && Synced(c) && Counters(c)
    requires Paired(items, n) && |items| == Width(n) && forall i :: 0 <= i < |items| ==> items[i].version == w
    ensures Logging(Log(c, items), n, w)
  {
    PairedEven(c.active.items, n);
    CountArithmetic(c.active.count, c.active.bcount, |items|);
    LogStructure(c, n, w, items);
    FullLogGrows(c, items);
    NoOlderAppend(FullLog(c), items, c.base);
  }

  lemma SettleSynced(c: Chain, n: nat, w: nat, q: Page)
    requires n <= 2 && w > 0 && Logging(c, n, w) && Shaped(q, n) && q.version == w
    requires c.base == w ==> w in c.frozen
    requires c.active.count == TD ==> w !in c.frozen && Key(w, false) !in c.stored
    ensures Structure(Settle(c, w, q), n, w) && SyncedIn(Settle(c, w, q), w)
  {
    if c.active.count >= TD {
      FullSynced(c, n, w);
      FrozenSettles(c, Freeze(c, w), n, w, q);
    } else {
      OpenSynced(c, n, w);
      CurSynced(c, w, n, w);
    }
  }

  /** A delta page that is full is frozen. */
  lemma FullSynced(c: Chain, n: nat, w: nat)
    requires n <= 2 && w > 0 && Logging(c, n, w) && c.active.count >= TD
    requires (c.base == w ==> w in c.frozen) && w !in c.frozen && Key(w, false) !in c.stored
    ensures Structure(Freeze(c, w), n, w) && SyncedIn(Freeze(c, w), w) && Key(w, false) !in Freeze(c, w).stored
  {
    FreezeSynced(c, n, w);
  }

  lemma OpenSynced(c: Chain, n: nat, w: nat)
    requires Logging(c, n, w) && c.active.count < TD && (c.base == w ==> w in c.frozen)
    ensures SyncedIn(c, w)
  {
  }

  /** After the freeze the page may be due for a checkpoint. */
  lemma FrozenSettles(c: Chain, c': Chain, n: nat, w: nat, q: Page)
    requires n <= 2 && w > 0 && Shaped(q, n) && q.version == w && c.active.count >= TD && c' == Freeze(c, w)
    requires Structure(c', n, w) && SyncedIn(c', w) && Key(w, false) !in c'.stored
    ensures Structure(Settle(c, w, q), n, w) && SyncedIn(Settle(c, w, q), w)
  {
    if c'.active.bcount >= TB {
      CheckpointSynced(c', n, w, q);
    } else {
      CurSynced(c', w, n, w);
    }
  }

  lemma StepSynced(H: Hash, c: Chain, p: Page, pid: Path, w: nat, call: Call, n: nat, m: nat)
    requires n <= 2 && |call.nibbles| == n && Shaped(p, n) && w > 0 && m > 0 && Budget(c, w, m)
    requires Structure(c, n, w) && SyncedIn(c, w)
    ensures var c' := Step(H, c, p, pid, w, call).0;
            Structure(c', n, w) && SyncedIn(c', w) && Budget(c', w, m - 1)
  {
    LoggedItems(H, p, pid, w, call);
    UpdatePageShape(H, p, pid, w, call);
    var q := UpdatePage(H, p, pid, w, call);
    var items := Logged(q, w, call);
    LogSynced(c, n, w, items);
    assert Key(w, false) in c.stored ==> c.base == w;
    SettleSynced(Log(c, items), n, w, q);
  }

  lemma {:induction false} StepsSynced(H: Hash, c: Chain, p: Page, pid: Path, w: nat, calls: seq<Call>, n: nat)
    requires n <= 2 && Shaped(p, n) && w > 0 && Budget(c, w, |calls|)
    requires forall i :: 0 <= i < |calls| ==> |calls[i].nibbles| == n
    requires Structure(c, n, w) && SyncedIn(c, w)
    ensures var c' := Steps(H, c, p, pid, w, calls, n).0;
            Structure(c', n, w) && SyncedIn(c', w) && Counters(c')
    decreases |calls|
  {
    if calls != [] {
      StepSynced(H, c, p, pid, w, calls[0], n, |calls|);
      UpdatePageShape(H, p, pid, w, calls[0]);
      var (c1, p1) := Step(H, c, p, pid, w, calls[0]);
      StepsSynced(H, c1, p1, pid, w, calls[1..], n);
    }
  }

  lemma RaiseTop(c: Chain, n: nat, top: nat, w: nat)
    requires Structure(c, n, top) && top <= w
    ensures Structure(c, n, w)
  {
  }

  /** The counters mean the same after any commit: update_count_ is the number of items
      in the active delta page, b_update_count_ the number since the last checkpoint. */
  lemma CommitSynced(H: Hash, c: Chain, p: Page, pid: Path, top: nat, w: nat, calls: seq<Call>, n: nat)
    requires n <= 2 && Shaped(p, n) && calls != [] && Counters(c) && top < w
    requires forall i :: 0 <= i < |calls| ==> |calls[i].nibbles| == n
    requires Structure(c, n, top) && Synced(c)
    ensures var c' := CommitPage(H, c, p, pid, w, calls, n).0;
            Structure(c', n, w) && Synced(c') && Counters(c')
  {
    RaiseTop(c, n, top, w);
    if 2 * |calls| + c.active.count >= 2 * TD {
      var c1 := c;
      if c.active.count != 0 {
        c1 := Freeze(c, w);
        FreezeSynced(c, n, w);
      }
      CurStructure(c1, w, n, w);
      var q := Updates(H, p, pid, w, calls, n);
      CheckpointSynced(c1.(cur := w), n, w, q);
    } else {
      StepsSynced(H, c, p, pid, w, calls, n);
    }
  }

  lemma CurStructure(c: Chain, cur: nat, n: nat, top: nat)
    requires Structure(c, n, top)
    ensures Structure(c.(cur := cur), n, top)
  {
    assert FullLog(c.(cur := cur)) == FullLog(c);
  }
}
