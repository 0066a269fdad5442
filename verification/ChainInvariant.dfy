/** The run invariant of one page's chain, kept by logging, freezing and checkpointing. */
module ChainInvariant {
  import opened Pages
  import opened Replays
  import opened Chains

  /* ---- What the stored pages under a key amount to ---- */

  /** Key k leads to a delta page whose own link goes further down, as all links do. */
  predicate Leads(stored: map<Key, Stored>, k: Key) {
    k.delta && k in stored && stored[k].Delta? &&
    var last := stored[k].d.last;
    last.version < k.version || (last.version == k.version && !last.delta)
  }

  /** The base page key at the end of the links from k. */
  function BaseOf(stored: map<Key, Stored>, k: Key): Key
    decreases k.version, k.delta
  {
    if Leads(stored, k) then BaseOf(stored, stored[k].d.last) else k
  }

  /** All items on the links from k, oldest first. */
  function ItemsAt(stored: map<Key, Stored>, k: Key): seq<Item>
    decreases k.version, k.delta
  {
    if Leads(stored, k) then ItemsAt(stored, stored[k].d.last) + stored[k].d.items else []
  }

  function PageAt(stored: map<Key, Stored>, k: Key): Page {
    if k.version > 0 && k in stored && stored[k].Base? then stored[k].p else EMPTY_PAGE
  }

  lemma {:induction false} BaseRefers(stored: map<Key, Stored>, k: Key)
    requires Linked(stored) && Refers(stored, k)
    ensures !BaseOf(stored, k).delta && Refers(stored, BaseOf(stored, k))
    ensures BaseOf(stored, k).version <= k.version
    decreases k.version, k.delta
  {
    if k.delta {
      assert LinkedAt(stored, k);
      BaseRefers(stored, stored[k].d.last);
    }
  }

  /** The page that the base under k and the items up to version v give. */
  function Rebuilt(stored: map<Key, Stored>, k: Key, more: seq<Item>, v: nat): Page {
    ApplyDelta(PageAt(stored, BaseOf(stored, k)), ItemsAt(stored, k) + more, v)
  }

  function FullLog(c: Chain): seq<Item> {
    ItemsAt(c.stored, c.active.last) + c.active.items
  }

  /** Storing under a fresh key changes nothing that is reachable from the old ones. */
  lemma {:induction false} StoredGrows(stored: map<Key, Stored>, key: Key, x: Stored, k: Key)
    requires Linked(stored) && Refers(stored, k) && key !in stored
    requires Linked(stored[key := x])
    ensures Refers(stored[key := x], k)
    ensures BaseOf(stored[key := x], k) == BaseOf(stored, k)
    ensures ItemsAt(stored[key := x], k) == ItemsAt(stored, k)
    decreases k.version, k.delta
  {
    if k.delta {
      assert LinkedAt(stored, k);
      StoredGrows(stored, key, x, stored[k].d.last);
    }
  }

  lemma RebuiltGrows(stored: map<Key, Stored>, key: Key, x: Stored, k: Key, more: seq<Item>, v: nat)
    requires Linked(stored) && Refers(stored, k) && key !in stored
    requires Linked(stored[key := x])
    ensures Refers(stored[key := x], k)
    ensures BaseOf(stored[key := x], k) == BaseOf(stored, k)
    ensures Rebuilt(stored[key := x], k, more, v) == Rebuilt(stored, k, more, v)
  {
    StoredGrows(stored, key, x, k);
    BaseRefers(stored, k);
  }

  lemma LinkedGrows(stored: map<Key, Stored>, key: Key, x: Stored)
    requires Linked(stored) && key !in stored
    requires key.version > 0
    requires match x
             case Base(p) => !key.delta && p.version == key.version
             case Delta(d) => key.delta && Refers(stored, d.last) &&
                              if d.last.delta then d.last.version < key.version else d.last.version <= key.version
    ensures Linked(stored[key := x])
  {
    var s := stored[key := x];
    forall k | k in s ensures LinkedAt(s, k) {
      if k != key {
        assert LinkedAt(stored, k);
      }
    }
  }

  /* ---- Snapshots ---- */

  /** The page as of version v, given the pages left by the commits that touched it. */
  function At(snaps: map<nat, Page>, v: nat): Page {
    if v in snaps then snaps[v] else if v == 0 then EMPTY_PAGE else At(snaps, v - 1)
  }

  lemma {:induction false} AtBelow(snaps: map<nat, Page>, w: nat, p: Page, v: nat)
    requires v < w
    ensures At(snaps[w := p], v) == At(snaps, v)
  {
    if v !in snaps && v > 0 {
      AtBelow(snaps, w, p, v - 1);
    }
  }

  lemma {:induction false} AtAbove(snaps: map<nat, Page>, w: nat, v: nat)
    requires w in snaps && (forall u :: u in snaps ==> u <= w) && v >= w
    ensures At(snaps, v) == snaps[w]
  {
    if v > w {
      AtAbove(snaps, w, v - 1);
    }
  }

  /** No touched version strictly after u up to v. */
  lemma {:induction false} AtGap(snaps: map<nat, Page>, u: nat, v: nat)
    requires u <= v && forall x :: u < x <= v ==> x !in snaps
    ensures At(snaps, v) == At(snaps, u)
  {
    if u < v {
      AtGap(snaps, u, v - 1);
    }
  }

  /* ---- The invariant ---- */

  ghost predicate Increasing(s: seq<nat>) {
    forall i, j :: 0 <= i < j < |s| ==> s[i] < s[j]
  }

  /** Shapes of everything stored for a page of kind n. */
  ghost predicate StoredShape(stored: map<Key, Stored>, n: nat) {
    forall k :: k in stored ==> match stored[k]
                                case Base(p) => Shaped(p, n)
                                case Delta(d) => Paired(d.items, n)
  }

  ghost predicate Links(c: Chain, n: nat, top: nat) {
    && Linked(c.stored) && StoredShape(c.stored, n)
    && Refers(c.stored, c.active.last)
    && BaseOf(c.stored, c.active.last) == Key(c.base, false) && c.base <= top
    && (forall k :: k in c.stored ==> k.version <= if k.delta then top else c.base)
  }

  /** Versions never decrease along a chain, and top bounds all of them. */
  ghost predicate Logs(c: Chain, n: nat, top: nat) {
    && c.active.count == |c.active.items| && Paired(c.active.items, n)
    && Sorted(FullLog(c)) && Within(FullLog(c), top)
  }

  ghost predicate Frozen(c: Chain, top: nat) {
    && Increasing(c.frozen)
    && (forall r: nat :: r in c.frozen <==> Key(r, true) in c.stored)
    && (forall r :: r in c.frozen ==> r <= top && NoOlder(c.active.items, r) && Sorted(ItemsAt(c.stored, Key(r, true))))
  }

  ghost predicate Structure(c: Chain, n: nat, top: nat) {
    Links(c, n, top) && Logs(c, n, top) && Frozen(c, top)
  }

  ghost predicate NoOlder(items: seq<Item>, r: nat) {
    forall i :: 0 <= i < |items| ==> items[i].version >= r
  }

  /** The active chain rebuilds every version from the last checkpoint on. */
  ghost predicate ActiveRebuilds(c: Chain, snaps: map<nat, Page>, loss: Loss) {
    forall v :: v >= c.base ==>
      Same(Rebuilt(c.stored, c.active.last, c.active.items, v), At(snaps, v), loss)
  }

  /** A delta page frozen at r rebuilds the versions before r from its base on. */
  ghost predicate FrozenRebuilds(c: Chain, snaps: map<nat, Page>, loss: Loss) {
    forall r, v :: Key(r, true) in c.stored && BaseOf(c.stored, Key(r, true)).version <= v < r ==>
      Same(Rebuilt(c.stored, Key(r, true), [], v), At(snaps, v), loss)
  }

  ghost predicate Inv(c: Chain, snaps: map<nat, Page>, n: nat, top: nat, loss: Loss) {
    && Structure(c, n, top)
    && ActiveRebuilds(c, snaps, loss)
    && FrozenRebuilds(c, snaps, loss)
  }

  lemma NewChainInv(n: nat, loss: Loss)
    ensures Inv(NEW_CHAIN, map[], n, 0, loss)
  {
    var c := NEW_CHAIN;
    forall v: nat ensures Rebuilt(c.stored, c.active.last, c.active.items, v) == EMPTY_PAGE &&
        At(map[], v) == EMPTY_PAGE {
      AtGap(map[], 0, v);
      assert ItemsAt(c.stored, c.active.last) + c.active.items == [];
    }
  }

  /* ---- Opening a commit: version w starts out as a copy of the newest page ---- */

  lemma OpenStep(c: Chain, snaps: map<nat, Page>, n: nat, top: nat, w: nat, p: Page, loss: Loss)
    requires Inv(c, snaps, n, top, loss) && top < w && (forall v :: v in snaps ==> v <= top)
    requires Same(p, At(snaps, top), loss)
    ensures Inv(c, snaps[w := p], n, w, loss)
  {
    var snaps' := snaps[w := p];
    forall v | v >= c.base ensures Same(Rebuilt(c.stored, c.active.last, c.active.items, v), At(snaps', v), loss) {
      if v < w {
        AtBelow(snaps, w, p, v);
      } else {
        AtAbove(snaps', w, v);
        AtGap(snaps, top, v);
      }
    }
    forall r, v | Key(r, true) in c.stored && BaseOf(c.stored, Key(r, true)).version <= v < r
      ensures Same(Rebuilt(c.stored, Key(r, true), [], v), At(snaps', v), loss)
    {
      assert r in c.frozen;
      AtBelow(snaps, w, p, v);
    }
  }

  /* ---- Logging ---- */

  lemma SortedAppend(s: seq<Item>, t: seq<Item>, w: nat)
    requires Sorted(s) && Within(s, w) && forall i :: 0 <= i < |t| ==> t[i].version == w
    ensures Sorted(s + t) && Within(s + t, w)
  {
  }

  lemma SortedTail(s: seq<Item>, t: seq<Item>, w: nat)
    requires Sorted(s + t) && Within(s + t, w)
    ensures Sorted(t) && Within(t, w)
  {
    var u := s + t;
    assert forall i :: 0 <= i < |t| ==> t[i] == u[|s| + i];
  }

  lemma NoOlderAppend(s: seq<Item>, t: seq<Item>, r: nat)
    requires NoOlder(s, r) && NoOlder(t, r)
    ensures NoOlder(s + t, r)
  {
  }

  lemma FullLogGrows(c: Chain, items: seq<Item>)
    requires Linked(c.stored) && Refers(c.stored, c.active.last)
    ensures FullLog(Log(c, items)) == FullLog(c) + items
  {
    var older := ItemsAt(c.stored, c.active.last);
    assert older + (c.active.items + items) == (older + c.active.items) + items;
  }

  lemma LogLogs(c: Chain, n: nat, w: nat, items: seq<Item>)
    requires Linked(c.stored) && Refers(c.stored, c.active.last)
    requires Logs(c, n, w) && Paired(items, n) && forall i :: 0 <= i < |items| ==> items[i].version == w
    ensures Logs(Log(c, items), n, w)
  {
    var c' := Log(c, items);
    FullLogGrows(c, items);
    assert Paired(c'.active.items, n) by { PairedConcat(c.active.items, items, n); }
    assert Sorted(FullLog(c')) && Within(FullLog(c'), w) by { SortedAppend(FullLog(c), items, w); }
  }

  lemma LogStructure(c: Chain, n: nat, w: nat, items: seq<Item>)
    requires Structure(c, n, w) && Paired(items, n) && forall i :: 0 <= i < |items| ==> items[i].version == w
    ensures Structure(Log(c, items), n, w)
  {
    LogLogs(c, n, w, items);
    forall r | r in c.frozen ensures NoOlder(c.active.items + items, r) {
      NoOlderAppend(c.active.items, items, r);
    }
  }

  lemma LogRebuilds(c: Chain, snaps: map<nat, Page>, n: nat, w: nat, items: seq<Item>, q: Page, loss: Loss)
    requires Structure(c, n, w) && ActiveRebuilds(c, snaps, loss)
    requires w in snaps && (forall v :: v in snaps ==> v <= w)
    requires forall i :: 0 <= i < |items| ==> items[i].version == w
    requires Same(Replay(snaps[w], items), q, loss)
    ensures ActiveRebuilds(Log(c, items), snaps[w := q], loss)
  {
    var c' := Log(c, items);
    var snaps' := snaps[w := q];
    forall v | v >= c'.base
      ensures Same(Rebuilt(c'.stored, c'.active.last, c'.active.items, v), At(snaps', v), loss)
    {
      if v < w {
        AtBelow(snaps, w, q, v);
        LogOlder(c, v, items);
      } else {
        AtAbove(snaps', w, v);
        AtAbove(snaps, w, v);
        LogNewest(c, snaps[w], w, v, items, q, loss);
      }
    }
  }

  lemma LogOlder(c: Chain, v: nat, items: seq<Item>)
    requires Linked(c.stored) && Refers(c.stored, c.active.last)
    requires forall i :: 0 <= i < |items| ==> items[i].version > v
    ensures Rebuilt(c.stored, c.active.last, c.active.items + items, v) ==
            Rebuilt(c.stored, c.active.last, c.active.items, v)
  {
    BaseRefers(c.stored, c.active.last);
    assert ItemsAt(c.stored, c.active.last) + (c.active.items + items) == FullLog(c) + items;
    DeltaBeyond(PageAt(c.stored, BaseOf(c.stored, c.active.last)), FullLog(c), items, v);
  }

  lemma LogNewest(c: Chain, p: Page, w: nat, v: nat, items: seq<Item>, q: Page, loss: Loss)
    requires Linked(c.stored) && Refers(c.stored, c.active.last)
    requires Within(FullLog(c), w) && Within(items, w) && v >= w
    requires Same(Rebuilt(c.stored, c.active.last, c.active.items, v), p, loss)
    requires Same(Replay(p, items), q, loss)
    ensures Same(Rebuilt(c.stored, c.active.last, c.active.items + items, v), q, loss)
  {
    BaseRefers(c.stored, c.active.last);
    var base := PageAt(c.stored, BaseOf(c.stored, c.active.last));
    assert ItemsAt(c.stored, c.active.last) + (c.active.items + items) == FullLog(c) + items;
    ReplayAll(base, FullLog(c), v);
    ReplayAll(base, FullLog(c) + items, v);
    ReplayConcat(base, FullLog(c), items);
    ReplayAll(Replay(base, FullLog(c)), items, v);
    ReplayAll(p, items, v);
    SameDelta(Replay(base, FullLog(c)), p, items, items, v, loss);
  }

  lemma FrozenKept(c: Chain, snaps: map<nat, Page>, w: nat, q: Page, loss: Loss)
    requires Linked(c.stored) && FrozenRebuilds(c, snaps, loss)
    requires forall r: nat :: Key(r, true) in c.stored ==> r <= w
    ensures FrozenRebuilds(c, snaps[w := q], loss)
  {
    forall r, v | Key(r, true) in c.stored && BaseOf(c.stored, Key(r, true)).version <= v < r
      ensures Same(Rebuilt(c.stored, Key(r, true), [], v), At(snaps[w := q], v), loss)
    {
      AtBelow(snaps, w, q, v);
    }
  }

  lemma LogStep(c: Chain, snaps: map<nat, Page>, n: nat, w: nat, items: seq<Item>, q: Page, loss: Loss)
    requires Inv(c, snaps, n, w, loss) && w in snaps && (forall v :: v in snaps ==> v <= w)
    requires Paired(items, n) && forall i :: 0 <= i < |items| ==> items[i].version == w
    requires Same(Replay(snaps[w], items), q, loss)
    ensures Inv(Log(c, items), snaps[w := q], n, w, loss)
  {
    LogStructure(c, n, w, items);
    LogRebuilds(c, snaps, n, w, items, q, loss);
    forall r: nat | Key(r, true) in c.stored ensures r <= w { assert r in c.frozen; }
    FrozenKept(c, snaps, w, q, loss);
    assert FrozenRebuilds(Log(c, items), snaps[w := q], loss);
  }

  /* ---- Freezing ---- */

  lemma FreezeLinked(c: Chain, w: nat)
    requires Linked(c.stored) && Refers(c.stored, c.active.last) && Frozen(c, w) && w > 0 && w !in c.frozen
    requires c.active.last.version <= w
    ensures Key(w, true) !in c.stored && Linked(Freeze(c, w).stored)
    ensures BaseOf(Freeze(c, w).stored, Key(w, true)) == BaseOf(c.stored, c.active.last)
    ensures ItemsAt(Freeze(c, w).stored, Key(w, true)) == FullLog(c) == FullLog(Freeze(c, w))
  {
    var key := Key(w, true);
    assert c.active.last.delta ==> c.active.last.version in c.frozen;
    LinkedGrows(c.stored, key, Delta(c.active));
    StoredGrows(c.stored, key, Delta(c.active), c.active.last);
    assert LinkedAt(Freeze(c, w).stored, key);
    assert FullLog(Freeze(c, w)) == FullLog(c) + [] == FullLog(c);
  }

  lemma IncreasingAppend(s: seq<nat>, w: nat)
    requires Increasing(s) && forall r :: r in s ==> r < w
    ensures Increasing(s + [w])
  {
    assert forall i :: 0 <= i < |s| ==> s[i] in s;
  }

  lemma FreezeFrozen(c: Chain, w: nat)
    requires Linked(c.stored) && Refers(c.stored, c.active.last) && Frozen(c, w) && w !in c.frozen
    requires Key(w, true) !in c.stored && Linked(Freeze(c, w).stored)
    requires ItemsAt(Freeze(c, w).stored, Key(w, true)) == FullLog(c) && Sorted(FullLog(c))
    ensures Frozen(Freeze(c, w), w)
  {
    var c' := Freeze(c, w);
    IncreasingAppend(c.frozen, w);
    forall r | r in c'.frozen ensures Sorted(ItemsAt(c'.stored, Key(r, true))) {
      if r != w {
        assert r in c.frozen;
        StoredGrows(c.stored, Key(w, true), Delta(c.active), Key(r, true));
      }
    }
  }

  lemma FreezeStructure(c: Chain, n: nat, w: nat)
    requires Structure(c, n, w) && w > 0 && w !in c.frozen
    ensures Linked(Freeze(c, w).stored) && Key(w, true) !in c.stored
    ensures Structure(Freeze(c, w), n, w)
    ensures FullLog(Freeze(c, w)) == FullLog(c)
  {
    FreezeLinked(c, w);
    FreezeFrozen(c, w);
    assert Links(Freeze(c, w), n, w);
  }

  lemma FreezeStep(c: Chain, snaps: map<nat, Page>, n: nat, w: nat, loss: Loss)
    requires Inv(c, snaps, n, w, loss) && w > 0 && w !in c.frozen
    ensures Inv(Freeze(c, w), snaps, n, w, loss)
  {
    var c' := Freeze(c, w);
    var key := Key(w, true);
    FreezeStructure(c, n, w);
    StoredGrows(c.stored, key, Delta(c.active), c.active.last);
    assert LinkedAt(c'.stored, key);
    forall v | v >= c'.base
      ensures Same(Rebuilt(c'.stored, key, [], v), At(snaps, v), loss)
    {
      FrozenIsActive(c, w, v);
    }
    forall r, v | Key(r, true) in c'.stored && BaseOf(c'.stored, Key(r, true)).version <= v < r
      ensures Same(Rebuilt(c'.stored, Key(r, true), [], v), At(snaps, v), loss)
    {
      if r != w {
        RebuiltGrows(c.stored, key, Delta(c.active), Key(r, true), [], v);
      }
    }
  }

  lemma FrozenIsActive(c: Chain, w: nat, v: nat)
    requires Linked(c.stored) && Refers(c.stored, c.active.last) && Key(w, true) !in c.stored
    requires Linked(Freeze(c, w).stored)
    ensures BaseOf(Freeze(c, w).stored, Key(w, true)) == BaseOf(c.stored, c.active.last)
    ensures Rebuilt(Freeze(c, w).stored, Key(w, true), [], v) == Rebuilt(c.stored, c.active.last, c.active.items, v)
  {
    var c' := Freeze(c, w);
    var key := Key(w, true);
    StoredGrows(c.stored, key, Delta(c.active), c.active.last);
    BaseRefers(c.stored, c.active.last);
    assert LinkedAt(c'.stored, key);
    assert ItemsAt(c'.stored, key) + [] == FullLog(c);
  }

  /* ---- Checkpointing ---- */

  /** Replaying the items still active onto the page they produced changes nothing. */
  lemma ActiveAbsorbed(c: Chain, n: nat, w: nat, p: Page, v: nat, loss: Loss)
    requires n <= 2 && Structure(c, n, w) && v >= w
    requires Same(Rebuilt(c.stored, c.active.last, c.active.items, v), p, loss)
    ensures Same(ApplyDelta(p, c.active.items, v), p, loss)
  {
    BaseRefers(c.stored, c.active.last);
    var base := PageAt(c.stored, BaseOf(c.stored, c.active.last));
    var older := ItemsAt(c.stored, c.active.last);
    var q := Replay(base, FullLog(c));
    assert Within(FullLog(c)[|older|..], w);
    assert FullLog(c)[|older|..] == c.active.items;
    ReplayAll(base, FullLog(c), v);
    ReplayAll(q, c.active.items, v);
    PageAtShape(c.stored, BaseOf(c.stored, c.active.last), n);
    ItemsPaired(c.stored, c.active.last, n);
    ReapplySuffix(base, older, c.active.items, n);
    SameDelta(q, p, c.active.items, c.active.items, v, loss);
  }

  lemma PageAtShape(stored: map<Key, Stored>, k: Key, n: nat)
    requires Linked(stored) && StoredShape(stored, n) && Refers(stored, k) && !k.delta
    ensures Shaped(PageAt(stored, k), n)
  {
    if k.version > 0 {
      assert LinkedAt(stored, k);
    }
  }

  lemma {:induction false} ItemsPaired(stored: map<Key, Stored>, k: Key, n: nat)
    requires Linked(stored) && StoredShape(stored, n) && Refers(stored, k)
    ensures Paired(ItemsAt(stored, k), n)
    decreases k.version, k.delta
  {
    if k.delta {
      assert LinkedAt(stored, k);
      ItemsPaired(stored, stored[k].d.last, n);
      PairedConcat(ItemsAt(stored, stored[k].d.last), stored[k].d.items, n);
    }
  }

  lemma CheckpointStructure(c: Chain, n: nat, w: nat, p: Page)
    requires Structure(c, n, w) && w > 0 && Key(w, false) !in c.stored && Shaped(p, n) && p.version == w
    ensures Structure(Checkpoint(c, w, p), n, w)
  {
    var c' := Checkpoint(c, w, p);
    LinkedGrows(c.stored, Key(w, false), Base(p));
    assert Links(c', n, w);
    CheckpointLogs(c, n, w, p);
    CheckpointFrozen(c, w, p);
  }

  lemma CheckpointLogs(c: Chain, n: nat, w: nat, p: Page)
    requires Links(c, n, w) && Logs(c, n, w) && Linked(Checkpoint(c, w, p).stored)
    ensures Logs(Checkpoint(c, w, p), n, w)
  {
    var c' := Checkpoint(c, w, p);
    assert FullLog(c') == [] + c.active.items == c.active.items;
    SortedTail(ItemsAt(c.stored, c.active.last), c.active.items, w);
  }

  lemma CheckpointFrozen(c: Chain, w: nat, p: Page)
    requires Linked(c.stored) && Frozen(c, w) && Key(w, false) !in c.stored
    requires Linked(Checkpoint(c, w, p).stored)
    ensures Frozen(Checkpoint(c, w, p), w)
  {
    var c' := Checkpoint(c, w, p);
    forall r | r in c'.frozen ensures Sorted(ItemsAt(c'.stored, Key(r, true))) {
      StoredGrows(c.stored, Key(w, false), Base(p), Key(r, true));
    }
  }

  lemma CheckpointStep(c: Chain, snaps: map<nat, Page>, n: nat, w: nat, p: Page, loss: Loss)
    requires n <= 2 && Inv(c, snaps, n, w, loss) && w > 0 && Key(w, false) !in c.stored
    requires w in snaps && (forall v :: v in snaps ==> v <= w)
    requires Shaped(p, n) && p.version == w && Same(p, snaps[w], loss)
    ensures Inv(Checkpoint(c, w, p), snaps, n, w, loss)
  {
    var c' := Checkpoint(c, w, p);
    var key := Key(w, false);
    CheckpointStructure(c, n, w, p);
    forall v | v >= w
      ensures Same(Rebuilt(c'.stored, key, c'.active.items, v), At(snaps, v), loss)
    {
      AtAbove(snaps, w, v);
      ActiveAbsorbed(c, n, w, p, v, loss);
      assert ItemsAt(c'.stored, key) + c'.active.items == c'.active.items;
    }
    forall r, v | Key(r, true) in c'.stored && BaseOf(c'.stored, Key(r, true)).version <= v < r
      ensures Same(Rebuilt(c'.stored, Key(r, true), [], v), At(snaps, v), loss)
    {
      RebuiltGrows(c.stored, key, Base(p), Key(r, true), [], v);
    }
  }

  /** The checkpoint that replaces logging in an oversize batch. */
  lemma OversizeStep(c: Chain, snaps: map<nat, Page>, n: nat, w: nat, q: Page, loss: Loss)
    requires Structure(c, n, w) && FrozenRebuilds(c, snaps, loss) && w > 0 && c.active.items == []
    requires Key(w, false) !in c.stored && Shaped(q, n) && q.version == w
    requires forall v :: v in snaps ==> v <= w
    ensures Inv(Checkpoint(c, w, q), snaps[w := q], n, w, loss)
  {
    var c' := Checkpoint(c, w, q);
    var snaps' := snaps[w := q];
    var key := Key(w, false);
    CheckpointStructure(c, n, w, q);
    forall v | v >= w ensures Same(Rebuilt(c'.stored, key, c'.active.items, v), At(snaps', v), loss) {
      AtAbove(snaps', w, v);
      assert ItemsAt(c'.stored, key) + c'.active.items == [];
    }
    forall r: nat | Key(r, true) in c.stored ensures r <= w { assert r in c.frozen; }
    FrozenKept(c, snaps, w, q, loss);
    forall r, v | Key(r, true) in c'.stored && BaseOf(c'.stored, Key(r, true)).version <= v < r
      ensures Same(Rebuilt(c'.stored, Key(r, true), [], v), At(snaps', v), loss)
    {
      RebuiltGrows(c.stored, key, Base(q), Key(r, true), [], v);
    }
  }
}
