/** The page table under the trie: a commit hands the pages it made to the table, which
    flushes them into files whenever it is full or told to, and a lookup finds each page as
    it was written, in memory or as what its bytes give back. */
module Storage {
  import opened Types
  import opened Chains
  import opened Copies
  import opened Sizes
  import opened ReadBacks
  import opened PageSpecs
  import opened TrieState
  import opened TrieRuns
  import opened TrieGrowth
  import opened TriePool
  import T = PageTable

  type Table = T.Table<Stored>
  type Entry = T.Entry<Stored>

  /** All pages ever written, by page id. */
  type Written = map<Path, map<Key, Stored>>

  function PagesOf(o: Written, pid: Path): map<Key, Stored> { if pid in o then o[pid] else map[] }

  function KeyOf(key: T.PageKey): Key { Key(key.version, key.delta) }

  function PageKeyOf(pid: Path, k: Key): T.PageKey { T.PageKey(k.version, k.delta, pid) }

  ghost predicate StoredAt(L: nat, o: Written, e: Entry) {
    var pages := PagesOf(o, e.key.pid);
    PageId(L, e.key.pid) && KeyOf(e.key) in pages && e.page == pages[KeyOf(e.key)]
  }

  /** The table holds the pages written and nothing else. */
  ghost predicate HoldsAll(L: nat, o: Written, t: Table) {
    T.TableInv(t) && forall e: Entry :: e in T.All(t) <==> StoredAt(L, o, e)
  }

  /* ---- The page cache of a commit ---- */

  /** Entering one page in the ordered map. */
  lemma {:induction false} EnterPage(pages: seq<Entry>, e: Entry) returns (more: seq<Entry>)
    requires T.StrictlySorted(pages) && forall x :: x in pages ==> x.key != e.key
    ensures T.StrictlySorted(more) && forall x :: x in more <==> x in pages || x == e
  {
    if pages == [] {
      more := [e];
    } else {
      var init, last := pages[..|pages| - 1], pages[|pages| - 1];
      assert pages == init + [last];
      T.LessIsTotal(last.key, e.key);
      if T.Less(last.key, e.key) {
        more := pages + [e];
        forall i | 0 <= i < |pages| ensures T.Less(pages[i].key, e.key) {
          if i < |init| { T.LessTransitive(pages[i].key, last.key, e.key); }
        }
      } else {
        var before := EnterPage(init, e);
        more := before + [last];
        forall i | 0 <= i < |before| ensures T.Less(before[i].key, last.key) {
          assert before[i] in before;
          if before[i] != e {
            var x :| 0 <= x < |init| && init[x] == before[i];
            assert pages[x] == init[x];
          }
        }
      }
    }
  }

  lemma {:induction false} OrderPages(all: set<Entry>) returns (pages: seq<Entry>)
    requires forall x, y :: x in all && y in all && x.key == y.key ==> x == y
    ensures T.StrictlySorted(pages) && forall x :: x in pages <==> x in all
    decreases |all|
  {
    if all == {} {
      pages := [];
    } else {
      var e :| e in all;
      var rest := OrderPages(all - {e});
      pages := EnterPage(rest, e);
    }
  }

  /** A page that a commit stored on its way from s to s'. */
  ghost predicate NewAt(L: nat, s: State, s': State, e: Entry) {
    var pid, k := e.key.pid, KeyOf(e.key);
    PageId(L, pid) && k in ChainOf(s', pid).stored && k !in ChainOf(s, pid).stored &&
        e.page == ChainOf(s', pid).stored[k]
  }

  lemma NewPagesExist(L: nat, s: State, s': State)
    ensures exists pages: seq<Entry> :: T.StrictlySorted(pages) && forall e :: e in pages <==> NewAt(L, s, s', e)
  {
    var all := set pid, k | pid in s'.chains && k in s'.chains[pid].stored ::
                 T.Entry(PageKeyOf(pid, k), s'.chains[pid].stored[k]);
    var added := set e | e in all && NewAt(L, s, s', e);
    forall e: Entry | NewAt(L, s, s', e) ensures e in all {
      assert PageKeyOf(e.key.pid, KeyOf(e.key)) == e.key;
    }
    var pages := OrderPages(added);
  }

  /** page_cache_ at the end of a commit that leads from s to s': an ordered map of the
      pages that the commit stored. */
  ghost function NewPages(L: nat, s: State, s': State): (pages: seq<Entry>)
    ensures T.StrictlySorted(pages) && forall e :: e in pages <==> NewAt(L, s, s', e)
  {
    NewPagesExist(L, s, s');
    var pages :| T.StrictlySorted(pages) && forall e :: e in pages <==> NewAt(L, s, s', e);
    pages
  }

  /* ---- What the trie sees of the pages written ---- */

  /** The page itself, or what its bytes give back. */
  ghost predicate StoredAs(y: Stored, x: Stored) { y == x || y == ReadBack(x) }

  ghost predicate GoodPage(L: nat, pid: Path, x: Stored, loss: FileLoss) {
    FitStored(HexString(pid), x, Carried(loss)) && ShapedStored(x, Kind(L, pid))
  }

  ghost predicate DerivedAt(L: nat, c: Chain, o: Written, pid: Path, loss: FileLoss) {
    c.stored.Keys == PagesOf(o, pid).Keys &&
    forall k :: k in c.stored ==>
      StoredAs(c.stored[k], PagesOf(o, pid)[k]) && GoodPage(L, pid, PagesOf(o, pid)[k], loss)
  }

  /** Each stored page of each chain is the one written, or that read back. */
  ghost predicate Derived(L: nat, s: State, o: Written, loss: FileLoss) {
    forall pid :: PageId(L, pid) ==> DerivedAt(L, ChainOf(s, pid), o, pid, loss)
  }

  lemma AlikeCopies(pid: Bytes, x: Stored, y: Stored, z: Stored, n: nat, loss: FileLoss)
    requires FitStored(pid, x, Carried(loss)) && ShapedStored(x, n) && |pid| <= 610 && StoredAs(y, x) && StoredAs(z, x)
    ensures CopyOf(y, z, loss) && FitStored(pid, z, Carried(loss))
  {
    FitSurvives(pid, x, n, loss);
    CopySame(x, loss);
    CopySame(ReadBack(x), loss);
    CopyFlip(x, ReadBack(x), loss);
  }

  /* ---- Commits, flushes and lookups ---- */

  /** The pages written once the commit's have been added. */
  function Extended(o: Written, s: State, s': State): Written {
    map pid | pid in o.Keys + s'.chains.Keys ::
      PagesOf(o, pid) + (map k | k in ChainOf(s', pid).stored &&
          k !in ChainOf(s, pid).stored :: ChainOf(s', pid).stored[k])
  }

  lemma ExtendedAt(L: nat, o: Written, s: State, s': State, e: Entry, loss: FileLoss)
    requires Derived(L, s, o, loss)
    ensures StoredAt(L, Extended(o, s, s'), e) <==> StoredAt(L, o, e) || NewAt(L, s, s', e)
  {
    var pid, k := e.key.pid, KeyOf(e.key);
    if PageId(L, pid) { assert DerivedAt(L, ChainOf(s, pid), o, pid, loss); }
  }

  /** A commit's pages are newer than the table's, so the table takes them in order; a full
      buffer may be flushed at any of them. */
  lemma CommitStores(L: nat, o: Written, s: State, s': State, t: Table, w: nat, loss: FileLoss)
    requires HoldsAll(L, o, t) && Derived(L, s, o, loss) && GrownState(L, s, s', w) && OlderThan(L, s, w)
    ensures HoldsAll(L, Extended(o, s, s'), T.StoreAll(t, NewPages(L, s, s')))
  {
    var pages := NewPages(L, s, s');
    forall i | 0 <= i < |pages| ensures pages[i].key.version == w {
      assert pages[i] in pages;
    }
    forall i | 0 <= i < |T.All(t)| ensures T.All(t)[i].key.version < w {
      assert T.All(t)[i] in T.All(t);
    }
    T.ApplyKeeps(t, T.Commit(w, pages), T.PageKey(0, false, []));
    forall e: Entry ensures e in T.All(t) + pages <==> StoredAt(L, Extended(o, s, s'), e) {
      ExtendedAt(L, o, s, s', e, loss);
    }
  }

  lemma FlushHolds(L: nat, o: Written, t: Table)
    requires HoldsAll(L, o, t)
    ensures HoldsAll(L, o, T.Flush(t))
  {
    T.FlushKeeps(t);
  }

  lemma ScanFinds(L: nat, o: Written, t: Table, pid: Path, k: Key)
    requires HoldsAll(L, o, t) && PageId(L, pid) && k.version > 0
    ensures T.LinearSearch(T.All(t), PageKeyOf(pid, k)) == PageLookup(PagesOf(o, pid), k)
  {
    var key, pages := PageKeyOf(pid, k), PagesOf(o, pid);
    assert k in pages ==> StoredAt(L, o, T.Entry(key, pages[k]));
    T.LinearSearchIs(T.All(t), key);
    match T.LinearSearch(T.All(t), key)
    case Some(p) => assert StoredAt(L, o, T.Entry(key, p));
    case None =>
  }

  /** The three-level search finds exactly the pages written. */
  lemma TableFinds(L: nat, o: Written, t: Table, pid: Path, k: Key)
    requires HoldsAll(L, o, t) && PageId(L, pid)
    ensures T.PageOf(T.PageLookup(t, PageKeyOf(pid, k))) == PageLookup(PagesOf(o, pid), k)
  {
    T.PageLookupExact(t, PageKeyOf(pid, k));
    if k.version > 0 { ScanFinds(L, o, t, pid, k); }
  }

  /** While a commit runs its pages wait in page_cache_, where pageLookup does not search.
      For the page that the commit comes to next, the table still has all there is. */
  lemma LookupDuringCommit(H: Hash, L: nat, o: Written, s: State, t: Table, w: nat, plan: seq<Work>,
                           evict: seq<set<CacheKey>>, x: nat, k: Key, loss: FileLoss)
    requires HoldsAll(L, o, t) && Derived(L, s, o, loss) && IsPlan(L, s.put, plan) &&
             |evict| == |plan|
    requires x < |plan| && k.version > 0
    ensures var found := T.PageOf(T.PageLookup(t, PageKeyOf(plan[x].pid, k)));
            var c := ChainOf(CommitAll(H, L, s, w, plan[..x], evict[..x]), plan[x].pid);
            (found.Some? <==> k in c.stored) && (found.Some? ==> StoredAs(c.stored[k], found.value))
  {
    HasWork(L, s.put, plan, x);
    PlanKeepsOthers(H, L, s, w, plan[..x], evict[..x], plan[x].pid);
    TableFinds(L, o, t, plan[x].pid, k);
    assert DerivedAt(L, ChainOf(s, plan[x].pid), o, plan[x].pid, loss);
  }

  /* ---- Reading through the files ---- */

  /** What pageLookup hands out: a buffered page as it is, a page of a file parsed from the
      bytes that were printed for it. */
  function Fetched(t: Table, pid: Path, k: Key): Option<Stored> {
    match T.PageLookup(t, PageKeyOf(pid, k))
    case Miss => None
    case InBuffer(x) => Some(x)
    case InFile(x) => ThroughBytes(HexString(pid), x)
  }

  lemma FetchedIs(L: nat, o: Written, t: Table, c: Chain, pid: Path, k: Key, loss: FileLoss)
    requires HoldsAll(L, o, t) && PageId(L, pid) && L <= 610 && DerivedAt(L, c, o, pid, loss) && Linked(c.stored) &&
             k in c.stored
    ensures var f := Fetched(t, pid, k);
            f.Some? && StoredAs(f.value, PagesOf(o, pid)[k]) && CopyOf(c.stored[k], f.value, loss) &&
            FitStored(HexString(pid), f.value, Carried(loss))
  {
    TableFinds(L, o, t, pid, k);
    assert LinkedAt(c.stored, k);
    var x := PagesOf(o, pid)[k];
    assert GoodPage(L, pid, x, loss);
    FitSurvives(HexString(pid), x, Kind(L, pid), loss);
    AlikeCopies(HexString(pid), x, c.stored[k], Fetched(t, pid, k).value, Kind(L, pid), loss);
  }

  /** The chain as LoadPage sees it through the table. */
  function Seen(t: Table, pid: Path, c: Chain): Chain {
    c.(stored := map k | k in c.stored && Fetched(t, pid, k).Some? :: Fetched(t, pid, k).value)
  }

  function ViewChains(s: State, t: Table): map<Path, Chain> {
    map pid | pid in s.chains :: Seen(t, pid, s.chains[pid])
  }

  /** The trie with all its stored pages looked up in the table. */
  function LookedUp(s: State, t: Table): State { s.(chains := ViewChains(s, t)) }

  ghost predicate FetchedWell(t: Table, c: Chain, o: map<Key, Stored>, pid: Path, loss: FileLoss)
    requires c.stored.Keys <= o.Keys
  {
    forall k :: k in c.stored ==>
      Fetched(t, pid, k).Some? && StoredAs(Fetched(t, pid, k).value, o[k]) &&
      CopyOf(c.stored[k], Fetched(t, pid, k).value, loss) &&
      FitStored(HexString(pid), Fetched(t, pid, k).value, Carried(loss))
  }

  lemma SeenCopies(t: Table, c: Chain, o: map<Key, Stored>, pid: Path, loss: FileLoss)
    requires c.stored.Keys <= o.Keys && FetchedWell(t, c, o, pid, loss)
    ensures ChainCopy(c, Seen(t, pid, c), loss)
  {
  }

  /** Looking a chain's pages up gives a faithful copy, made of pages written or read back. */
  lemma SeenIs(L: nat, o: Written, t: Table, c: Chain, pid: Path, loss: FileLoss)
    requires HoldsAll(L, o, t) && PageId(L, pid) && L <= 610 && DerivedAt(L, c, o, pid, loss) && Linked(c.stored)
    requires FitChain(HexString(pid), c, Carried(loss))
    ensures var d := Seen(t, pid, c);
            ChainCopy(c, d, loss) && DerivedAt(L, d, o, pid, loss) && FitChain(HexString(pid), d, Carried(loss))
  {
    forall k | k in c.stored
      ensures Fetched(t, pid, k).Some? && StoredAs(Fetched(t, pid, k).value, PagesOf(o, pid)[k]) &&
              CopyOf(c.stored[k], Fetched(t, pid, k).value, loss) &&
                  FitStored(HexString(pid), Fetched(t, pid, k).value, Carried(loss))
    {
      FetchedIs(L, o, t, c, pid, k, loss);
    }
    assert FetchedWell(t, c, PagesOf(o, pid), pid, loss);
    SeenCopies(t, c, PagesOf(o, pid), pid, loss);
  }
}
