/** What a stale base count can do. The pool's file does not carry b_update_count_, and a
    recycled pool object keeps the count of another page: the checkpoint may then come
    before the delta page is full, and a version that could be read before it is lost. */
module StaleCounts {
  import opened Types
  import opened Pages
  import opened Chains
  import opened PageCommits
  import opened PageSpecs
  import opened Loads
  import opened Copies
  import opened Lost

  /** The chain of a new page whose pool object was that of a page with 252 items. */
  const STALE_CHAIN := NEW_CHAIN.(active := NEW_CHAIN.active.(bcount := 252))

  /** A call that sets the slot of grandchild [i, 0]. */
  ghost predicate SetsGrandchild(call: Call, i: Nibble) {
    call.nibbles == [i, 0] && ValidCalls([call], 2)
  }

  /** A commit of one call, logged, that fills neither threshold or only the base's. */
  lemma OneLoggedCall(H: Hash, c: Chain, p: Page, w: nat, call: Call)
    requires Shaped(p, 2) && ValidCalls([call], 2) && c.active.count + 2 < TD && Counters(c)
    ensures var (c', q) := CommitPage(H, c, p, [], w, [call], 2);
            Shaped(q, 2) && q == UpdatePage(H, p, [], w, call) && q.root.Some? && call.nibbles[0] in q.kids &&
            c' == if c.active.bcount + 2 >= TB then Checkpoint(Log(c, Logged(q, w, call)), w, q)
                  else Log(c, Logged(q, w, call)).(cur := w)
  {
    assert [call][0] == call;
    UpdatePageShape(H, p, [], w, call);
    LoggedItems(H, p, [], w, call);
    StepsUnfold(H, c, p, [], w, [call], 2);
    assert [call][1..] == [];
  }

  /** The active delta page after the first commit: two items, and 254 on the count. */
  ghost predicate OneCommit(c: Chain, old1: seq<Item>) {
    && c == Chain(DeltaPage(old1, NO_PAGE, 2, 254), map[], 1, 0, [])
    && |old1| == 2 && old1[0].version == old1[1].version == 1 && old1[0].location == 1 && old1[1].location == 0
  }

  lemma FirstCommit(H: Hash, call: Call) returns (c: Chain, p: Page, old1: seq<Item>)
    requires SetsGrandchild(call, 0)
    ensures (c, p) == CommitPage(H, STALE_CHAIN, EMPTY_PAGE, [], 1, [call], 2)
    ensures Shaped(p, 2) && p.kids.Keys == {0} && OneCommit(c, old1)
  {
    OneLoggedCall(H, STALE_CHAIN, EMPTY_PAGE, 1, call);
    var r := CommitPage(H, STALE_CHAIN, EMPTY_PAGE, [], 1, [call], 2);
    c, p := r.0, r.1;
    old1 := Logged(p, 1, call);
    assert [] + old1 == old1;
  }

  /** After the second: a checkpoint of version 2, and no frozen delta page. */
  ghost predicate TwoCommits(c: Chain, q: Page, old1: seq<Item>, new2: seq<Item>) {
    && c == Chain(DeltaPage(old1 + new2, Key(2, false), 4, 0), map[Key(2, false) := Base(q)], 2, 2, [])
    && q.version == 2 && q.root.Some? && q.root.value.Index? && |new2| == 2 && new2[0].version == 2
  }

  lemma SecondCommit(H: Hash, c: Chain, p: Page, call: Call, old1: seq<Item>)
    returns (c': Chain, q: Page, new2: seq<Item>)
    requires SetsGrandchild(call, 1) && Shaped(p, 2) && OneCommit(c, old1)
    ensures (c', q) == CommitPage(H, c, p, [], 2, [call], 2) && TwoCommits(c', q, old1, new2)
    ensures 1 in q.kids && KidSlot(q, 1, 0) == Slot(2, call.childHash)
  {
    OneLoggedCall(H, c, p, 2, call);
    var r := CommitPage(H, c, p, [], 2, [call], 2);
    c', q := r.0, r.1;
    new2 := Logged(q, 2, call);
    UpdateSlot(H, p, [], 2, call, 1, 0);
  }

  /** After commit 1 a load of version 1 is right; commit 2 takes a checkpoint, and then the
      same load answers a page stamped 1 that holds what commit 2 wrote. */
  lemma StaleCountLosesVersion(H: Hash, first: Call, second: Call, loss: Loss)
    returns (c1: Chain, p1: Page, c2: Chain, p2: Page)
    requires SetsGrandchild(first, 0) && SetsGrandchild(second, 1)
    ensures ChainCopy(NEW_CHAIN, STALE_CHAIN, loss)
    ensures (c1, p1) == CommitPage(H, STALE_CHAIN, EMPTY_PAGE, [], 1, [first], 2) && Shaped(p1, 2)
    ensures (c2, p2) == CommitPage(H, c1, p1, [], 2, [second], 2)
    ensures Linked(c1.stored) && Recoverable(c1, 1) && 1 !in p1.kids
    ensures Uncovered(c1.active, 1, 2)
    ensures Linked(c2.stored) && !Recoverable(c2, 1)
    ensures var l := LoadPage(c2, 2, 1); l.Found? && l.p.version == 1 && 1 in l.p.kids
  {
    var old1, new2;
    c1, p1, old1 := FirstCommit(H, first);
    c2, p2, new2 := SecondCommit(H, c1, p1, second, old1);
    OldItemsOverNewPage(c2, p2, old1, new2);
  }

  /** A load at version 1 that starts from the checkpoint of version 2. */
  lemma OldItemsOverNewPage(c: Chain, p: Page, old1: seq<Item>, new2: seq<Item>)
    requires TwoCommits(c, p, old1, new2) && 1 in p.kids
    requires |old1| == 2 && old1[0].version == old1[1].version == 1 && old1[0].location == 1 && old1[1].location == 0
    ensures var l := LoadPage(c, 2, 1);
            l.Found? && l.p.version == 1 && 1 in l.p.kids && l.p.kids[1] == p.kids[1] &&
            l.p.root.Some? && l.p.root.value.Index?
  {
    assert Start(c, 2, 1) == ([], c.active.last);
    assert [] + [] + [c.active] == [c.active];
    assert [c.active][1..] == [];
    var items := old1 + new2;
    var p1 := UpdateDeltaItem(p, items[0]);
    var p2 := UpdateDeltaItem(p1, items[1]);
    assert items[1..][0] == items[1] && items[1..][1..] == items[2..] && items[2..][0] == new2[0];
    assert ApplyDelta(p, items, 1) == ApplyDelta(p1, items[1..], 1) == ApplyDelta(p2, items[2..], 1) == p2;
    assert ReplayDeltas(p, [c.active], 1) == ReplayDeltas(p2, [], 1);
  }
}
