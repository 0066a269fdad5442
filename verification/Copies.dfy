/** Pages that went through a file and came back: a chain of copies rebuilds what the
    chain of originals does, as far as the copies are faithful. */
module Copies {
  import opened Types
  import opened Pages
  import opened Replays
  import opened Chains
  import opened ChainInvariant
  import opened PageCommits

  ghost predicate CopyOf(x: Stored, y: Stored, loss: Loss) {
    match x
    case Base(p) => y.Base? && Same(p, y.p, loss)
    case Delta(d) => y.Delta? && y.d.last == d.last && SameItems(y.d.items, d.items, loss)
  }

  /** d is c with stored pages replaced by copies and the active delta page either kept or
      read anew: the pool's file does not carry b_update_count_, and a page without a file
      place is left the count of whichever page had the pool object before. */
  ghost predicate ChainCopy(c: Chain, d: Chain, loss: Loss) {
    && d.cur == c.cur && d.base == c.base && d.frozen == c.frozen
    && d.active.last == c.active.last && d.active.count == c.active.count
    && (d.active.bcount == c.active.bcount || d.active.bcount < TB)
    && SameItems(d.active.items, c.active.items, loss)
    && d.stored.Keys == c.stored.Keys
    && forall k :: k in c.stored ==> CopyOf(c.stored[k], d.stored[k], loss)
  }

  lemma {:induction false} SamePaired(s: seq<Item>, t: seq<Item>, n: nat, loss: Loss)
    requires SameItems(t, s, loss) && Paired(s, n)
    ensures Paired(t, n)
    decreases |s|
  {
    if s != [] {
      assert ViewItem(t[0], loss) == ViewItem(s[0], loss);
      if n == 0 {
        SamePaired(s[1..], t[1..], n, loss);
      } else {
        assert ViewItem(t[1], loss) == ViewItem(s[1], loss);
        SamePaired(s[2..], t[2..], n, loss);
      }
    }
  }

  lemma SameItemsConcat(a: seq<Item>, b: seq<Item>, x: seq<Item>, y: seq<Item>, loss: Loss)
    requires SameItems(a, x, loss) && SameItems(b, y, loss)
    ensures SameItems(a + b, x + y, loss)
  {
  }

  lemma SameVersions(s: seq<Item>, t: seq<Item>, top: nat, loss: Loss)
    requires SameItems(t, s, loss)
    ensures Sorted(s) ==> Sorted(t)
    ensures Within(s, top) ==> Within(t, top)
    ensures NoOlder(s, top) ==> NoOlder(t, top)
  {
    assert forall i :: 0 <= i < |s| ==> ViewItem(t[i], loss) == ViewItem(s[i], loss) && t[i].version == s[i].version;
  }

  lemma CopyLinked(c: Chain, d: Chain, loss: Loss)
    requires Linked(c.stored) && ChainCopy(c, d, loss)
    ensures Linked(d.stored)
  {
    forall k | k in d.stored ensures LinkedAt(d.stored, k) {
      assert LinkedAt(c.stored, k) && CopyOf(c.stored[k], d.stored[k], loss);
      if !k.delta {
        SameParts(c.stored[k].p, d.stored[k].p, loss);
      }
    }
  }

  lemma {:induction false} CopyChain(c: Chain, d: Chain, k: Key, loss: Loss)
    requires Linked(c.stored) && Linked(d.stored) && ChainCopy(c, d, loss) && Refers(c.stored, k)
    ensures Refers(d.stored, k) && BaseOf(d.stored, k) == BaseOf(c.stored, k)
    ensures SameItems(ItemsAt(d.stored, k), ItemsAt(c.stored, k), loss)
    decreases k.version, k.delta
  {
    if k.delta {
      assert LinkedAt(c.stored, k) && LinkedAt(d.stored, k) && CopyOf(c.stored[k], d.stored[k], loss);
      CopyChain(c, d, c.stored[k].d.last, loss);
      SameItemsConcat(ItemsAt(d.stored, c.stored[k].d.last), d.stored[k].d.items,
                      ItemsAt(c.stored, c.stored[k].d.last), c.stored[k].d.items, loss);
    }
  }

  lemma CopyRebuilt(c: Chain, d: Chain, k: Key, s: seq<Item>, t: seq<Item>, v: nat, loss: Loss)
    requires Linked(c.stored) && Linked(d.stored) && ChainCopy(c, d, loss) && Refers(c.stored, k)
    requires SameItems(t, s, loss)
    ensures Refers(d.stored, k) && Same(Rebuilt(d.stored, k, t, v), Rebuilt(c.stored, k, s, v), loss)
  {
    CopyChain(c, d, k, loss);
    BaseRefers(c.stored, k);
    var b := BaseOf(c.stored, k);
    if b.version > 0 {
      assert LinkedAt(c.stored, b) && LinkedAt(d.stored, b) && CopyOf(c.stored[b], d.stored[b], loss);
    }
    SameItemsConcat(ItemsAt(d.stored, k), t, ItemsAt(c.stored, k), s, loss);
    SameDelta(PageAt(d.stored, b), PageAt(c.stored, b), ItemsAt(d.stored, k) + t, ItemsAt(c.stored, k) + s, v, loss);
  }

  lemma CopyLinks(c: Chain, d: Chain, n: nat, top: nat, loss: Loss)
    requires Links(c, n, top) && ChainCopy(c, d, loss)
    ensures Links(d, n, top)
  {
    CopyLinked(c, d, loss);
    CopyChain(c, d, c.active.last, loss);
    forall k | k in d.stored
      ensures match d.stored[k]
              case Base(p) => Shaped(p, n)
              case Delta(x) => Paired(x.items, n)
    {
      assert CopyOf(c.stored[k], d.stored[k], loss);
      if d.stored[k].Delta? {
        SamePaired(c.stored[k].d.items, d.stored[k].d.items, n, loss);
      } else {
        SameShape(c.stored[k].p, d.stored[k].p, n, loss);
      }
    }
  }

  lemma CopyLogs(c: Chain, d: Chain, n: nat, top: nat, loss: Loss)
    requires Links(c, n, top) && Links(d, n, top) && ChainCopy(c, d, loss) && Logs(c, n, top)
    ensures Logs(d, n, top)
  {
    CopyChain(c, d, c.active.last, loss);
    SameItemsConcat(ItemsAt(d.stored, c.active.last), d.active.items, ItemsAt(c.stored, c.active.last),
        c.active.items, loss);
    SameVersions(FullLog(c), FullLog(d), top, loss);
    SamePaired(c.active.items, d.active.items, n, loss);
  }

  lemma CopyFrozen(c: Chain, d: Chain, top: nat, loss: Loss)
    requires Linked(c.stored) && Linked(d.stored) && ChainCopy(c, d, loss) && Frozen(c, top)
    ensures Frozen(d, top)
  {
    forall r | r in d.frozen
      ensures r <= top && NoOlder(d.active.items, r) && Sorted(ItemsAt(d.stored, Key(r, true)))
    {
      SameVersions(c.active.items, d.active.items, r, loss);
      CopyChain(c, d, Key(r, true), loss);
      SameVersions(ItemsAt(c.stored, Key(r, true)), ItemsAt(d.stored, Key(r, true)), r, loss);
    }
  }

  /** The invariant survives flushing stored pages to files and reloading the active page. */
  lemma CopyKeeps(c: Chain, d: Chain, snaps: map<nat, Page>, n: nat, top: nat, loss: Loss)
    requires Inv(c, snaps, n, top, loss) && ChainCopy(c, d, loss)
    ensures Inv(d, snaps, n, top, loss) && (Counters(c) ==> Counters(d))
  {
    CopyLinks(c, d, n, top, loss);
    CopyLogs(c, d, n, top, loss);
    CopyFrozen(c, d, top, loss);
    forall v | v >= d.base ensures Same(Rebuilt(d.stored, d.active.last, d.active.items, v), At(snaps, v), loss) {
      CopyRebuilt(c, d, c.active.last, c.active.items, d.active.items, v, loss);
    }
    forall r, v | Key(r, true) in d.stored && BaseOf(d.stored, Key(r, true)).version <= v < r
      ensures Same(Rebuilt(d.stored, Key(r, true), [], v), At(snaps, v), loss)
    {
      CopyChain(c, d, Key(r, true), loss);
      CopyRebuilt(c, d, Key(r, true), [], [], v, loss);
    }
  }
}
