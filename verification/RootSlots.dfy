/** Pages whose root has lost some of its slots, as a page parsed from a file has lost them
    all: which root hash is computed on top of them, and which slots replay brings back. */
module RootSlots {
  import opened Types
  import opened Pages
  import opened Chains
  import opened PageCommits
  import opened PageSpecs
  import opened TrieTheorems

  /* ---- Lists with parts left out ---- */

  /** t is s with some parts empty. */
  ghost predicate Thinned(s: seq<Bytes>, t: seq<Bytes>) {
    |s| == |t| && forall j :: 0 <= j < |s| ==> t[j] == s[j] || t[j] == []
  }

  lemma {:induction false} ThinnedLength(s: seq<Bytes>, t: seq<Bytes>)
    requires Thinned(s, t)
    ensures |Join(t)| <= |Join(s)| && (|Join(t)| == |Join(s)| ==> t == s)
    decreases |s|
  {
    if s != [] {
      ThinnedLength(s[1..], t[1..]);
      assert s == [s[0]] + s[1..] && t == [t[0]] + t[1..];
    }
  }

  /** Such lists concatenate to the same only if nothing is missing. */
  lemma ThinnedJoinIff(s: seq<Bytes>, t: seq<Bytes>)
    requires Thinned(s, t)
    ensures Join(s) == Join(t) <==> s == t
  {
    ThinnedLength(s, t);
  }

  /* ---- Holes ---- */

  ghost predicate Intact(p: Page, q: Page, j: Nibble) {
    RootHash(q, j) == RootHash(p, j)
  }

  /** q is p with some root slots lost; the root's own hash is not compared. */
  ghost predicate Holed(p: Page, q: Page) {
    && q.version == p.version && q.kids == p.kids && q.root.Some? == p.root.Some?
    && (p.root.Some? ==>
          q.root.value.Leaf? == p.root.value.Leaf? && q.root.value.version == p.root.value.version &&
          (p.root.value.Leaf? ==> q.root == p.root) &&
          (p.root.value.Index? ==> q.root.value.slots.Keys == p.root.value.slots.Keys))
    && forall j: Nibble :: Intact(p, q, j) || RootHash(q, j) == []
  }

  lemma HoledSlots(p: Page, q: Page)
    requires Holed(p, q) && p.root.Some? && p.root.value.Index?
    ensures q.root.Some? && q.root.value.Index?
    ensures Thinned(SlotHashes(p.root.value.slots), SlotHashes(q.root.value.slots))
    ensures SlotHashes(p.root.value.slots) == SlotHashes(q.root.value.slots) <==> forall j: Nibble :: Intact(p, q, j)
  {
    var s, t := SlotHashes(p.root.value.slots), SlotHashes(q.root.value.slots);
    forall j | 0 <= j < |s| ensures t[j] == s[j] || t[j] == [] {
      var i: Nibble := j;
      assert Intact(p, q, i) || RootHash(q, i) == [];
    }
    if s == t {
      forall j: Nibble ensures Intact(p, q, j) { assert s[j] == t[j]; }
    }
    if forall j: Nibble :: Intact(p, q, j) {
      forall j | 0 <= j < |s| ensures s[j] == t[j] {
        var i: Nibble := j;
        assert Intact(p, q, i);
      }
    }
  }

  /* ---- Updates ---- */

  /** One update fills the slot of the child it reaches and no other. */
  lemma UpdateHoled(H: Hash, p: Page, q: Page, pid: Path, w: nat, c: Call, n: nat)
    requires n > 0 && ValidCall(c, n) && Shaped(p, n) && Holed(p, q)
    ensures Shaped(q, n)
    ensures var p', q' := UpdatePage(H, p, pid, w, c), UpdatePage(H, q, pid, w, c);
            Holed(p', q') && (forall j: Nibble :: Intact(p', q', j) <==> Intact(p, q, j) || j == c.nibbles[0]) &&
            p'.root.Some? && p'.root.value.Index? && p'.root.value.hash == SlotsHash(H, p'.root.value.slots) &&
            q'.root.Some? && q'.root.value.Index? && q'.root.value.hash == SlotsHash(H, q'.root.value.slots)
  {
    assert UpdateKid(H, q, pid, w, c) == UpdateKid(H, p, pid, w, c);
    var p', q' := UpdatePage(H, p, pid, w, c), UpdatePage(H, q, pid, w, c);
    forall j: Nibble
      ensures Intact(p', q', j) || RootHash(q', j) == []
      ensures Intact(p', q', j) <==> Intact(p, q, j) || j == c.nibbles[0]
    {
      UpdateHash(H, p, pid, w, c, n, j);
      UpdateHash(H, q, pid, w, c, n, j);
      assert Intact(p, q, j) || RootHash(q, j) == [];
    }
  }

  lemma UpdateHash(H: Hash, p: Page, pid: Path, w: nat, c: Call, n: nat, j: Nibble)
    requires n > 0 && ValidCall(c, n) && Shaped(p, n)
    ensures RootHash(UpdatePage(H, p, pid, w, c), j) ==
            if j == c.nibbles[0] then UpdateKid(H, p, pid, w, c).hash else RootHash(p, j)
  {
  }

  lemma {:induction false} UpdatesHoled(H: Hash, p: Page, q: Page, pid: Path, w: nat, calls: seq<Call>, n: nat)
    requires n > 0 && ValidCalls(calls, n) && Shaped(p, n) && Holed(p, q)
    ensures Shaped(q, n)
    ensures var p', q' := Updates(H, p, pid, w, calls, n), Updates(H, q, pid, w, calls, n);
            Holed(p', q') && (forall j: Nibble :: Intact(p', q', j) <==> Intact(p, q, j) || Reaches(calls, j)) &&
            (calls != [] ==>
               p'.root.Some? && p'.root.value.Index? && p'.root.value.hash == SlotsHash(H, p'.root.value.slots) &&
               q'.root.Some? && q'.root.value.Index? && q'.root.value.hash == SlotsHash(H, q'.root.value.slots))
    decreases |calls|
  {
    if calls != [] {
      UpdatePageShape(H, p, pid, w, calls[0]);
      UpdateHoled(H, p, q, pid, w, calls[0], n);
      var p1, q1 := UpdatePage(H, p, pid, w, calls[0]), UpdatePage(H, q, pid, w, calls[0]);
      UpdatesHoled(H, p1, q1, pid, w, calls[1..], n);
      forall j: Nibble ensures Reaches(calls, j) <==> j == calls[0].nibbles[0] || Reaches(calls[1..], j) {
        ReachesTail(calls, j);
      }
    }
  }

  /** The root hash that a commit computes on a page with lost slots is the right one if and
      only if it reaches every child whose slot was lost. */
  lemma UpdatesHashIff(H: Hash, p: Page, q: Page, pid: Path, w: nat, calls: seq<Call>, n: nat)
    requires Injective(H) && n > 0 && ValidCalls(calls, n) && calls != [] && Shaped(p, n) && Holed(p, q)
    ensures Shaped(q, n)
    ensures var p', q' := Updates(H, p, pid, w, calls, n), Updates(H, q, pid, w, calls, n);
            p'.root.Some? && q'.root.Some? &&
            (q'.root.value.hash == p'.root.value.hash <==>
             forall j: Nibble :: Intact(p, q, j) || Reaches(calls, j))
  {
    var p', q' := Updates(H, p, pid, w, calls, n), Updates(H, q, pid, w, calls, n);
    UpdatesHoled(H, p, q, pid, w, calls, n);
    HoledSlots(p', q');
    ThinnedJoinIff(SlotHashes(p'.root.value.slots), SlotHashes(q'.root.value.slots));
  }

  /* ---- Replay ---- */

  /** q is p with slots of existing children lost, and still the same root hash: what a page
      that was parsed from a file is to the page that was written. */
  ghost predicate ReadAgain(p: Page, q: Page) {
    && Holed(p, q) && (p.root.Some? ==> q.root.value.hash == p.root.value.hash)
    && forall j: Nibble :: j in p.kids || Intact(p, q, j)
  }

  /** A root item that sets slot j. */
  predicate SetsSlot(it: Item, j: Nibble) { it.location == 0 && !it.isLeaf && it.index == j }

  lemma ReplayedHash(p: Page, it: Item, j: Nibble)
    ensures RootHash(UpdateDeltaItem(p, it), j) ==
            if p.root.Some? && p.root.value.Leaf? then []
            else if SetsSlot(it, j) then it.childHash
            else if 0 < it.location <= 16 && j == it.location - 1 && j !in p.kids then []
            else RootHash(p, j)
  {
  }

  /** Replaying one item on both pages. */
  lemma ItemReread(p: Page, q: Page, it: Item)
    requires ReadAgain(p, q)
    ensures var p', q' := UpdateDeltaItem(p, it), UpdateDeltaItem(q, it);
            ReadAgain(p', q') && forall j: Nibble :: Intact(p', q', j) <==> Intact(p, q, j) || SetsSlot(it, j)
  {
    var p', q' := UpdateDeltaItem(p, it), UpdateDeltaItem(q, it);
    forall j: Nibble
      ensures Intact(p', q', j) || RootHash(q', j) == []
      ensures Intact(p', q', j) <==> Intact(p, q, j) || SetsSlot(it, j)
      ensures j in p'.kids || Intact(p', q', j)
    {
      ReplayedHash(p, it, j);
      ReplayedHash(q, it, j);
      assert Intact(p, q, j) || RootHash(q, j) == [];
      assert j in p.kids || Intact(p, q, j);
    }
  }

  /** Some item that is not too new sets slot j. */
  predicate SetsBy(items: seq<Item>, v: nat, j: Nibble)
    decreases |items|
  {
    items != [] && items[0].version <= v && (SetsSlot(items[0], j) || SetsBy(items[1..], v, j))
  }

  predicate DeltasSet(ds: seq<DeltaPage>, v: nat, j: Nibble)
    decreases |ds|
  {
    ds != [] && (SetsBy(ds[0].items, v, j) || DeltasSet(ds[1..], v, j))
  }

  lemma {:induction false} ApplyReread(p: Page, q: Page, items: seq<Item>, v: nat)
    requires ReadAgain(p, q)
    ensures var p', q' := ApplyDelta(p, items, v), ApplyDelta(q, items, v);
            ReadAgain(p', q') && forall j: Nibble :: Intact(p', q', j) <==> Intact(p, q, j) || SetsBy(items, v, j)
    decreases |items|
  {
    if items != [] && items[0].version <= v {
      ItemReread(p, q, items[0]);
      ApplyReread(UpdateDeltaItem(p, items[0]), UpdateDeltaItem(q, items[0]), items[1..], v);
    }
  }

  /** Replay brings back exactly the slots that its root items set. */
  lemma {:induction false} ReplayReread(p: Page, q: Page, ds: seq<DeltaPage>, v: nat)
    requires ReadAgain(p, q)
    ensures var p', q' := ReplayDeltas(p, ds, v), ReplayDeltas(q, ds, v);
            ReadAgain(p', q') && forall j: Nibble :: Intact(p', q', j) <==> Intact(p, q, j) || DeltasSet(ds, v, j)
    decreases |ds|
  {
    if ds != [] {
      ApplyReread(p, q, ds[0].items, v);
      ReplayReread(ApplyDelta(p, ds[0].items, v), ApplyDelta(q, ds[0].items, v), ds[1..], v);
    }
  }

  /* ---- Loading ---- */

  /** A checkpoint with slots lost; a delta page with the same items. */
  ghost predicate RereadStored(x: Stored, y: Stored) {
    match x
    case Base(p) => y.Base? && ReadAgain(p, y.p)
    case Delta(d) => y.Delta? && y.d.items == d.items && y.d.last == d.last
  }

  /** d is c with its stored pages read back. */
  ghost predicate RereadChain(c: Chain, d: Chain) {
    d == c.(stored := d.stored) && d.stored.Keys == c.stored.Keys &&
    forall k :: k in c.stored ==> RereadStored(c.stored[k], d.stored[k])
  }

  ghost predicate SameLogs(ds: seq<DeltaPage>, es: seq<DeltaPage>) {
    |ds| == |es| && forall x :: 0 <= x < |ds| ==> es[x].items == ds[x].items
  }

  lemma {:induction false} SameLogsReplay(p: Page, ds: seq<DeltaPage>, es: seq<DeltaPage>, v: nat)
    requires SameLogs(ds, es)
    ensures ReplayDeltas(p, es, v) == ReplayDeltas(p, ds, v)
    decreases |ds|
  {
    if ds != [] { SameLogsReplay(ApplyDelta(p, ds[0].items, v), ds[1..], es[1..], v); }
  }

  ghost predicate SameLinks(stored: map<Key, Stored>, stored': map<Key, Stored>) {
    stored'.Keys == stored.Keys &&
    forall k :: k in stored ==>
      stored'[k].Delta? == stored[k].Delta? &&
      (stored[k].Delta? ==> stored'[k].d.items == stored[k].d.items && stored'[k].d.last == stored[k].d.last)
  }

  lemma {:induction false} SameWalk(stored: map<Key, Stored>, stored': map<Key, Stored>, k: Key)
    requires SameLinks(stored, stored')
    ensures Walk(stored', k).1 == Walk(stored, k).1 && SameLogs(Walk(stored, k).0, Walk(stored', k).0)
    decreases stored.Keys
  {
    if k.delta {
      match PageLookup(stored, k)
      case Some(Delta(d)) =>
        assert k in stored && k !in stored - {k};
        assert (stored - {k}).Keys == (stored' - {k}).Keys;
        SameWalk(stored - {k}, stored' - {k}, d.last);
      case _ =>
    }
  }

  /** The base page a load starts from, and the delta pages it replays. */
  function BasePage(c: Chain, b: Key): Loaded {
    if b.version == 0 then Found(EMPTY_PAGE)
    else match PageLookup(c.stored, b)
         case Some(Base(p)) => Found(p)
         case _ => Fault
  }

  function LoadStart(c: Chain, current: nat, v: nat): (seq<DeltaPage>, Key) {
    var (sentinel, k) := Start(c, current, v);
    var (ds, b) := Walk(c.stored, k);
    (ds + sentinel + [c.active], b)
  }

  lemma LoadIs(c: Chain, current: nat, v: nat)
    ensures var (ds, b) := LoadStart(c, current, v);
            LoadPage(c, current, v) ==
            match BasePage(c, b)
            case Found(p) =>
              var q := ReplayDeltas(p, ds, v);
              if q.version < v then Missing else Found(q)
            case other => other
  {
  }

  lemma SameLinksOf(c: Chain, d: Chain)
    requires RereadChain(c, d)
    ensures SameLinks(c.stored, d.stored)
  {
    forall k | k in c.stored
      ensures d.stored[k].Delta? == c.stored[k].Delta?
      ensures c.stored[k].Delta? ==>
                d.stored[k].d.items == c.stored[k].d.items && d.stored[k].d.last == c.stored[k].d.last
    {
      assert RereadStored(c.stored[k], d.stored[k]);
    }
  }

  lemma SameStart(c: Chain, d: Chain, current: nat, v: nat)
    requires RereadChain(c, d)
    ensures LoadStart(d, current, v).1 == LoadStart(c, current, v).1
    ensures SameLogs(LoadStart(c, current, v).0, LoadStart(d, current, v).0)
  {
    SameLinksOf(c, d);
    var (s, k) := Start(c, current, v);
    var (t, k') := Start(d, current, v);
    assert k' == k && SameLogs(s, t);
    SameWalk(c.stored, d.stored, k);
  }

  lemma EmptyReread()
    ensures ReadAgain(EMPTY_PAGE, EMPTY_PAGE) && forall j: Nibble :: Intact(EMPTY_PAGE, EMPTY_PAGE, j)
  {
  }

  /** Slot j is as it was in the checkpoint, or a replayed root item sets it. */
  ghost predicate SlotKept(c: Chain, d: Chain, current: nat, v: nat, j: Nibble) {
    var (ds, b) := LoadStart(c, current, v);
    var base, back := BasePage(c, b), BasePage(d, b);
    DeltasSet(ds, v, j) || (base.Found? && back.Found? && Intact(base.p, back.p, j))
  }

  /** A load from stored pages that were read back answers the same page up to root slots,
      and exactly the slots that replay sets, or that were not lost, are intact. */
  lemma LoadReread(c: Chain, d: Chain, current: nat, v: nat)
    requires RereadChain(c, d)
    ensures var l, m := LoadPage(c, current, v), LoadPage(d, current, v);
            (l.Found? <==> m.Found?) && (!l.Found? ==> m == l) && (l.Found? ==> ReadAgain(l.p, m.p))
    ensures var l, m := LoadPage(c, current, v), LoadPage(d, current, v);
            l.Found? ==> forall j: Nibble :: Intact(l.p, m.p, j) <==> SlotKept(c, d, current, v, j)
  {
    var (ds, b) := LoadStart(c, current, v);
    SameStart(c, d, current, v);
    LoadIs(c, current, v);
    LoadIs(d, current, v);
    EmptyReread();
    if b in c.stored { assert RereadStored(c.stored[b], d.stored[b]); }
    if BasePage(c, b).Found? {
      SameLogsReplay(BasePage(d, b).p, ds, LoadStart(d, current, v).0, v);
      ReplayReread(BasePage(c, b).p, BasePage(d, b).p, ds, v);
    }
  }
}
