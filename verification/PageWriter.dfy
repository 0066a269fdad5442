/** Committing to one page with the mutable objects: UpdatePage call by call on a base page
    and its active delta page, freezing and checkpointing on the way. */
module PageWriter {
  import opened Types
  import opened Pages
  import opened Chains
  import opened PageCommits
  import opened PageObjects
  import opened BasePages

  /** What the trie and the page store remember of one page id, apart from the active delta
      page: its entry in page_versions_, its list in deltapage_versions_, its stored pages. */
  class PageTables {
    var stored: map<Key, Stored>
    var cur: nat
    var base: nat
    var frozen: seq<nat>

    function ChainWith(d: DeltaPage): Chain
      reads this
    {
      Chain(d, stored, cur, base, frozen)
    }

    constructor (c: Chain)
      ensures ChainWith(c.active) == c
    {
      stored, cur, base, frozen := c.stored, c.cur, c.base, c.frozen;
    }

    method WritePageCache(key: Key, x: Stored)
      modifies this`stored
      ensures stored == old(stored)[key := x]
    {
      stored := stored[key := x];
    }

    method AddDeltaPageVersion(version: nat)
      modifies this`frozen
      ensures frozen == old(frozen) + [version]
    {
      frozen := frozen + [version];
    }

    method UpdatePageVersion(current: nat, latestBasePage: nat)
      modifies this`cur, this`base
      ensures cur == current && base == latestBasePage
    {
      cur := current;
      base := latestBasePage;
    }

    /** The active delta page is stored under version w and emptied. */
    method FreezeDelta(w: nat, delta: MutableDeltaPage)
      modifies this, delta
      ensures ChainWith(delta.Contents()) == Freeze(old(ChainWith(delta.Contents())), w)
    {
      WritePageCache(Key(w, true), Delta(delta.Contents()));
      delta.ClearDeltaPage();
      delta.SetLastPageKey(Key(w, true));
      AddDeltaPageVersion(w);
    }

    /** A copy of the page is stored under version w. */
    method StoreCheckpoint(w: nat, q: Page, delta: MutableDeltaPage)
      modifies this, delta
      ensures ChainWith(delta.Contents()) == Checkpoint(old(ChainWith(delta.Contents())), w, q)
    {
      WritePageCache(Key(w, false), Base(q));
      UpdatePageVersion(w, w);
      delta.ClearBasePageUpdateCount();
      delta.SetLastPageKey(Key(w, false));
    }

    /** The tail of UpdatePage: freeze after TD items, checkpoint after TB. */
    method SettleAt(w: nat, q: Page, delta: MutableDeltaPage)
      modifies this, delta
      ensures ChainWith(delta.Contents()) == Settle(old(ChainWith(delta.Contents())), w, q)
    {
      if delta.count >= TD {
        FreezeDelta(w, delta);
      }
      if delta.bcount >= TB {
        StoreCheckpoint(w, q, delta);
        return;
      }
      UpdatePageVersion(w, base);
    }
  }

  lemma StepIs(H: Hash, c: Chain, p: Page, pid: Path, w: nat, call: Call, d: DeltaPage)
    requires ValidCall(call, |call.nibbles|) && Shaped(p, |call.nibbles|)
    requires LoggedBy(c.active, d, UpdatePage(H, p, pid, w, call), w, call)
    ensures Step(H, c, p, pid, w, call) ==
            (Settle(c.(active := d), w, UpdatePage(H, p, pid, w, call)), UpdatePage(H, p, pid, w, call))
  {
  }

  /** UpdatePage with a delta page: update, log, settle. */
  method UpdateAndSettle(H: Hash, page: BasePage, delta: MutableDeltaPage, tables: PageTables, pid: Path, w: nat,
                         c: Call)
    returns (q: Page)
    requires page.Valid() && ValidCall(c, |c.nibbles|) && Shaped(page.Value(), |c.nibbles|)
    requires delta !in page.Repr && tables !in page.Repr
    modifies page, page.Repr, delta, tables
    ensures page.Valid() && fresh(page.Repr - old(page.Repr)) && page.Value() == q
    ensures (tables.ChainWith(delta.Contents()), q) ==
            Step(H, old(tables.ChainWith(delta.Contents())), old(page.Value()), pid, w, c)
  {
    ghost var chain, p := tables.ChainWith(delta.Contents()), page.Value();
    page.UpdatePage(H, pid, w, c, delta);
    q := page.Value();
    assert delta !in page.Repr && tables !in page.Repr;
    StepIs(H, chain, p, pid, w, c, delta.Contents());
    label Logged:
    tables.SettleAt(w, q, delta);
    page.Untouched@Logged();
  }

  /** UpdatePage without a delta page: nothing is logged, frozen or stored. */
  method UpdateUnlogged(H: Hash, page: BasePage, tables: PageTables, pid: Path, w: nat, c: Call) returns (q: Page)
    requires page.Valid() && ValidCall(c, |c.nibbles|) && Shaped(page.Value(), |c.nibbles|) && tables !in page.Repr
    modifies page, page.Repr, tables`cur, tables`base
    ensures page.Valid() && fresh(page.Repr - old(page.Repr)) && page.Value() == q
    ensures q == UpdatePage(H, old(page.Value()), pid, w, c)
    ensures tables.cur == w && tables.base == old(tables.base)
  {
    page.UpdatePage(H, pid, w, c, null);
    q := page.Value();
    assert tables !in page.Repr;
    label Updated:
    tables.UpdatePageVersion(w, tables.base);
    page.Untouched@Updated();
  }

  /** From c and p the calls from the i-th on lead to the given end. */
  ghost predicate StepsTo(H: Hash, c: Chain, p: Page, pid: Path, w: nat, calls: seq<Call>, i: nat, n: nat,
                          end: (Chain, Page)) {
    n <= 2 && Shaped(p, n) && ValidCalls(calls, n) && i <= |calls| &&
    forall rest :: rest == calls[i..] && ValidCalls(rest, n) ==> Steps(H, c, p, pid, w, rest, n) == end
  }

  lemma StepsNext(H: Hash, c: Chain, p: Page, pid: Path, w: nat, calls: seq<Call>, i: nat, n: nat, end: (Chain, Page),
                  c': Chain, p': Page)
    requires StepsTo(H, c, p, pid, w, calls, i, n, end) && i < |calls| && (c', p') == Step(H, c, p, pid, w, calls[i])
    ensures StepsTo(H, c', p', pid, w, calls, i + 1, n, end)
  {
    UpdatePageShape(H, p, pid, w, calls[i]);
    assert calls[i..][0] == calls[i] && calls[i..][1..] == calls[i + 1..];
    assert ValidCalls(calls[i..], n);
  }

  lemma StepsEnd(H: Hash, c: Chain, p: Page, pid: Path, w: nat, calls: seq<Call>, n: nat, end: (Chain, Page))
    requires StepsTo(H, c, p, pid, w, calls, |calls|, n, end)
    ensures end == (c, p)
  {
    assert calls[|calls|..] == [];
    assert Steps(H, c, p, pid, w, [], n) == end;
  }

  ghost predicate UpdatesTo(H: Hash, p: Page, pid: Path, w: nat, calls: seq<Call>, i: nat, n: nat, end: Page) {
    n <= 2 && Shaped(p, n) && ValidCalls(calls, n) && i <= |calls| &&
    forall rest :: rest == calls[i..] && ValidCalls(rest, n) ==> Updates(H, p, pid, w, rest, n) == end
  }

  lemma UpdatesBegin(H: Hash, p: Page, pid: Path, w: nat, calls: seq<Call>, n: nat)
    requires n <= 2 && Shaped(p, n) && ValidCalls(calls, n)
    ensures UpdatesTo(H, p, pid, w, calls, 0, n, Updates(H, p, pid, w, calls, n))
  {
    assert calls[0..] == calls;
  }

  lemma UpdatesNext(H: Hash, p: Page, pid: Path, w: nat, calls: seq<Call>, i: nat, n: nat, end: Page, p': Page)
    requires UpdatesTo(H, p, pid, w, calls, i, n, end) && i < |calls| && p' == UpdatePage(H, p, pid, w, calls[i])
    ensures UpdatesTo(H, p', pid, w, calls, i + 1, n, end)
  {
    UpdatePageShape(H, p, pid, w, calls[i]);
    assert calls[i..][0] == calls[i] && calls[i..][1..] == calls[i + 1..];
    assert ValidCalls(calls[i..], n);
  }

  lemma UpdatesEnd(H: Hash, p: Page, pid: Path, w: nat, calls: seq<Call>, n: nat, end: Page)
    requires UpdatesTo(H, p, pid, w, calls, |calls|, n, end)
    ensures end == p
  {
    assert calls[|calls|..] == [];
    assert Updates(H, p, pid, w, [], n) == end;
  }

  /** The next call of a page, logged. */
  method UpdateNext(H: Hash, page: BasePage, delta: MutableDeltaPage, tables: PageTables, pid: Path, w: nat,
                    calls: seq<Call>, i: nat, ghost n: nat, ghost end: (Chain, Page))
    requires page.Valid() && delta !in page.Repr && tables !in page.Repr && i < |calls|
    requires StepsTo(H, tables.ChainWith(delta.Contents()), page.Value(), pid, w, calls, i, n, end)
    modifies page, page.Repr, delta, tables
    ensures page.Valid() && fresh(page.Repr - old(page.Repr))
    ensures StepsTo(H, tables.ChainWith(delta.Contents()), page.Value(), pid, w, calls, i + 1, n, end)
  {
    ghost var c, p := tables.ChainWith(delta.Contents()), page.Value();
    var q := UpdateAndSettle(H, page, delta, tables, pid, w, calls[i]);
    StepsNext(H, c, p, pid, w, calls, i, n, end, tables.ChainWith(delta.Contents()), q);
  }

  /** The calls of one page, logged. */
  method UpdateLogged(H: Hash, page: BasePage, delta: MutableDeltaPage, tables: PageTables, pid: Path, w: nat,
                      calls: seq<Call>, ghost n: nat)
    returns (q: Page)
    requires n <= 2 && page.Valid() && Shaped(page.Value(), n) && ValidCalls(calls, n)
    requires delta !in page.Repr && tables !in page.Repr
    modifies page, page.Repr, delta, tables
    ensures (tables.ChainWith(delta.Contents()), q) ==
            Steps(H, old(tables.ChainWith(delta.Contents())), old(page.Value()), pid, w, calls, n)
  {
    ghost var end := Steps(H, tables.ChainWith(delta.Contents()), page.Value(), pid, w, calls, n);
    for i := 0 to |calls|
      invariant page.Valid() && fresh(page.Repr - old(page.Repr)) && delta !in page.Repr && tables !in page.Repr
      invariant StepsTo(H, tables.ChainWith(delta.Contents()), page.Value(), pid, w, calls, i, n, end)
    {
      UpdateNext(H, page, delta, tables, pid, w, calls, i, n, end);
    }
    q := page.Value();
    StepsEnd(H, tables.ChainWith(delta.Contents()), q, pid, w, calls, n, end);
  }

  /** The calls of one page on their way to a checkpoint, not logged. */
  method UpdateOnly(H: Hash, page: BasePage, tables: PageTables, pid: Path, w: nat, calls: seq<Call>, n: nat)
    returns (q: Page)
    requires n <= 2 && page.Valid() && Shaped(page.Value(), n) && ValidCalls(calls, n) && tables !in page.Repr
    modifies page, page.Repr, tables`cur, tables`base
    ensures q == Updates(H, old(page.Value()), pid, w, calls, n) && tables.base == old(tables.base)
  {
    q := page.Value();
    ghost var end := Updates(H, q, pid, w, calls, n);
    UpdatesBegin(H, q, pid, w, calls, n);
    for i := 0 to |calls|
      invariant page.Valid() && fresh(page.Repr - old(page.Repr)) && tables !in page.Repr
      invariant q == page.Value() && UpdatesTo(H, q, pid, w, calls, i, n, end)
      invariant tables.base == old(tables.base)
    {
      ghost var q0 := q;
      q := UpdateUnlogged(H, page, tables, pid, w, calls[i]);
      UpdatesNext(H, q0, pid, w, calls, i, n, end, q);
    }
    UpdatesEnd(H, q, pid, w, calls, n, end);
  }

  /** A batch larger than two delta pages: what was logged is frozen, and the updated page
      becomes a checkpoint. */
  method CommitOversize(H: Hash, page: BasePage, delta: MutableDeltaPage, tables: PageTables, pid: Path, w: nat,
                        calls: seq<Call>, n: nat)
    returns (q: Page)
    requires n <= 2 && page.Valid() && Shaped(page.Value(), n) && ValidCalls(calls, n)
    requires delta !in page.Repr && tables !in page.Repr && 2 * |calls| + delta.count >= 2 * TD
    modifies page, page.Repr, delta, tables
    ensures (tables.ChainWith(delta.Contents()), q) ==
            CommitPage(H, old(tables.ChainWith(delta.Contents())), old(page.Value()), pid, w, calls, n)
  {
    ghost var c, p := tables.ChainWith(delta.Contents()), page.Value();
    FreezeIfAny(w, delta, tables);
    assert page.Value() == p;
    ghost var c1 := tables.ChainWith(delta.Contents());
    q := UpdateOnly(H, page, tables, pid, w, calls, n);
    ghost var cur := tables.cur;
    assert tables.ChainWith(delta.Contents()) == c1.(cur := cur);
    assert q == Updates(H, p, pid, w, calls, n);
    tables.StoreCheckpoint(w, q, delta);
  }

  method FreezeIfAny(w: nat, delta: MutableDeltaPage, tables: PageTables)
    modifies delta, tables
    ensures tables.ChainWith(delta.Contents()) == FrozenFirst(old(tables.ChainWith(delta.Contents())), w)
  {
    if delta.count != 0 {
      tables.FreezeDelta(w, delta);
    }
  }

  function FrozenFirst(c: Chain, w: nat): Chain {
    if c.active.count != 0 then Freeze(c, w) else c
  }

  method CopyPage(p: Page, ghost n: nat) returns (page: BasePage)
    requires Shaped(p, n)
    ensures page.Valid() && page.Value() == p && fresh(page.Repr)
  {
    page := new BasePage();
    page.CopyFrom(p);
  }

  /** A batch larger than two delta pages goes to a checkpoint, any other is logged. */
  method CommitObjects(H: Hash, page: BasePage, delta: MutableDeltaPage, tables: PageTables, pid: Path, w: nat,
                       calls: seq<Call>, n: nat)
    returns (q: Page)
    requires n <= 2 && page.Valid() && Shaped(page.Value(), n) && ValidCalls(calls, n)
    requires delta !in page.Repr && tables !in page.Repr
    modifies page, page.Repr, delta, tables
    ensures (tables.ChainWith(delta.Contents()), q) ==
            CommitPage(H, old(tables.ChainWith(delta.Contents())), old(page.Value()), pid, w, calls, n)
  {
    if 2 * |calls| + delta.count >= 2 * TD {
      q := CommitOversize(H, page, delta, tables, pid, w, calls, n);
    } else {
      q := UpdateLogged(H, page, delta, tables, pid, w, calls, n);
    }
  }

  /** The part of CalcRootHash that handles one page once its calls are known. */
  method CommitPageObjects(H: Hash, c: Chain, p: Page, pid: Path, w: nat, calls: seq<Call>, n: nat)
    returns (c': Chain, q: Page)
    requires n <= 2 && Shaped(p, n) && ValidCalls(calls, n)
    ensures (c', q) == CommitPage(H, c, p, pid, w, calls, n)
  {
    var delta := new MutableDeltaPage(c.active);
    var tables := new PageTables(c);
    var page := CopyPage(p, n);
    assert tables.ChainWith(delta.Contents()) == c;
    q := CommitObjects(H, page, delta, tables, pid, w, calls, n);
    c' := tables.ChainWith(delta.Contents());
  }
}
