/** What a checkpoint that went through a file still proves: reading it back resets the
    slots of its root, and node proofs and new root hashes are computed from the slots. */
module Reread {
  import opened Types
  import opened Pages
  import opened Chains
  import opened PageCommits
  import opened PageSpecs
  import opened DeltaCodec
  import opened BaseCodec
  import opened ReadBacks
  import opened Sizes
  import opened TrieReads
  import opened TrieTheorems
  import opened RootSlots

  /* ---- Proof nodes and root hashes over lost slots ---- */

  lemma SlotsBut(p: Page, q: Page, i: Nibble, hash: Bytes)
    requires Holed(p, q) && p.root.Some? && p.root.value.Index? && RootHash(p, i) == hash
    ensures q.root.Some? && q.root.value.Index?
    ensures Thinned(SlotHashes(p.root.value.slots), SlotHashes(q.root.value.slots)[i := hash])
    ensures SlotHashes(p.root.value.slots) == SlotHashes(q.root.value.slots)[i := hash] <==>
            forall j: Nibble :: j != i ==> Intact(p, q, j)
  {
    var s, t := SlotHashes(p.root.value.slots), SlotHashes(q.root.value.slots)[i := hash];
    HoledSlots(p, q);
    assert forall j: Nibble :: j != i ==> (s[j] == t[j] <==> Intact(p, q, j));
    if forall j: Nibble :: j != i ==> Intact(p, q, j) {
      forall j | 0 <= j < |s| ensures s[j] == t[j] {
        var x: Nibble := j;
        assert x != i ==> Intact(p, q, x);
      }
    }
  }

  /** A proof node taken from a page with lost slots hashes to the root hash if and only if
      every sibling's slot is intact. */
  lemma ProofNodeIff(H: Hash, p: Page, q: Page, n: nat, level: nat, i: Nibble)
    requires Injective(H) && Shaped(p, n) && Hashed(H, p) && Holed(p, q)
    requires p.root.Some? && p.root.value.Index? && i in p.kids
    ensures q.root.Some? && q.root.value.Index? &&
            (NodeHash(H, ProofOf(q.root.value, level, i), p.kids[i].hash) == p.root.value.hash <==>
             forall j: Nibble :: j != i ==> Intact(p, q, j))
  {
    assert HashedKid(H, p, i);
    SlotsBut(p, q, i, p.kids[i].hash);
    ThinnedJoinIff(SlotHashes(p.root.value.slots), SlotHashes(q.root.value.slots)[i := p.kids[i].hash]);
  }

  /* ---- One page read back ---- */

  lemma ResetHash(root: Node, j: Nibble)
    requires root.Index?
    ensures SlotHash(ResetSlots(root).slots, j) == []
  {
  }

  /** Reading a page back loses the slot of every child and nothing else. */
  lemma PageBackReread(H: Hash, p: Page, n: nat)
    requires Shaped(p, n) && Hashed(H, p) && FullPage(p) && StampedPage(p)
    ensures ReadAgain(p, PageBack(p)) && forall j: Nibble :: Intact(p, PageBack(p), j) <==> j !in p.kids
  {
    PageBackFull(p);
    forall j: Nibble
      ensures Intact(p, PageBack(p), j) <==> j !in p.kids
      ensures Intact(p, PageBack(p), j) || RootHash(PageBack(p), j) == []
    {
      if p.root.value.Index? {
        ResetHash(p.root.value, j);
        if j in p.kids { assert HashedKid(H, p, j); }
      }
    }
  }

  lemma ProofAloneIff(H: Hash, p: Page, q: Page, n: nat, level: nat, i: Nibble)
    requires Injective(H) && Shaped(p, n) && Hashed(H, p) && p.root.Some? && p.root.value.Index? && i in p.kids
    requires ReadAgain(p, q) && forall j: Nibble :: Intact(p, q, j) <==> j !in p.kids
    ensures q.root.Some? && q.root.value.Index? && q.root.value.hash == p.root.value.hash &&
            (NodeHash(H, ProofOf(q.root.value, level, i), p.kids[i].hash) == q.root.value.hash <==> p.kids.Keys == {i})
  {
    ProofNodeIff(H, p, q, n, level, i);
    if p.kids.Keys != {i} {
      var j :| j in p.kids && j != i;
      assert !Intact(p, q, j);
    }
  }

  /** The root's proof node, from a page read back, hashes to the root hash again if and only
      if the page has one child only. */
  lemma RereadProofIff(H: Hash, p: Page, n: nat, level: nat, i: Nibble)
    requires Injective(H) && Shaped(p, n) && Hashed(H, p) && FullPage(p) && StampedPage(p)
    requires p.root.value.Index? && i in p.kids
    ensures var root := PageBack(p).root.value;
            root.Index? && root.hash == p.root.value.hash &&
            (NodeHash(H, ProofOf(root, level, i), p.kids[i].hash) == root.hash <==> p.kids.Keys == {i})
  {
    PageBackReread(H, p, n);
    ProofAloneIff(H, p, PageBack(p), n, level, i);
  }

  /** A root hash that a commit computes on a page read back is the right one if and only if
      the commit reaches every child that the page had. */
  lemma RereadUpdatesIff(H: Hash, p: Page, n: nat, pid: Path, w: nat, calls: seq<Call>)
    requires Injective(H) && n > 0 && ValidCalls(calls, n) && calls != []
    requires Shaped(p, n) && Hashed(H, p) && FullPage(p) && StampedPage(p)
    ensures Shaped(PageBack(p), n)
    ensures var p', q' := Updates(H, p, pid, w, calls, n), Updates(H, PageBack(p), pid, w, calls, n);
            p'.root.Some? && q'.root.Some? &&
            (q'.root.value.hash == p'.root.value.hash <==> forall j :: j in p.kids ==> Reaches(calls, j))
  {
    PageBackReread(H, p, n);
    UpdatesHashIff(H, p, PageBack(p), pid, w, calls, n);
  }

  /** While a page whose slots were copied back from its children proves what it did before. */
  lemma RecoveredProof(H: Hash, p: Page, n: nat, level: nat, i: Nibble)
    requires Shaped(p, n) && Hashed(H, p) && FullPage(p) && p.version == p.root.value.version
    requires p.root.value.Index? && i in p.kids
    ensures Recover(PageBack(p)) == p &&
            NodeHash(H, ProofOf(p.root.value, level, i), p.kids[i].hash) == p.root.value.hash
  {
    RecoverRestores(H, p, n);
    assert HashedKid(H, p, i);
    UpdateSame(SlotHashes(p.root.value.slots), i, p.kids[i].hash);
  }

  /* ---- A page rebuilt from a checkpoint and delta pages read back ---- */

  /** Stored pages as commits leave them, with 32-byte hashes. */
  ghost predicate FullStored(H: Hash, x: Stored, n: nat) {
    match x
    case Base(p) => Shaped(p, n) && Hashed(H, p) && FullPage(p) && StampedPage(p)
    case Delta(d) => forall i :: 0 <= i < |d.items| ==> Plain(d.items[i]) && FullHashes(d.items[i])
  }

  ghost predicate FullChain(H: Hash, c: Chain, n: nat) {
    forall k :: k in c.stored ==> FullStored(H, c.stored[k], n)
  }

  /** Every stored page has been written to a file and is read back from it. */
  function FromFile(c: Chain): Chain {
    c.(stored := map k | k in c.stored :: ReadBack(c.stored[k]))
  }

  lemma ItemsBackFull(d: DeltaPage)
    requires forall i :: 0 <= i < |d.items| ==> Plain(d.items[i]) && FullHashes(d.items[i])
    ensures DeltaBack(d).items == d.items
  {
    forall i | 0 <= i < |d.items| ensures ItemBack(d.items[i]) == d.items[i] { ItemBackIff(d.items[i]); }
  }

  lemma FromFileRereads(H: Hash, c: Chain, n: nat)
    requires FullChain(H, c, n)
    ensures RereadChain(c, FromFile(c))
  {
    forall k | k in c.stored ensures RereadStored(c.stored[k], FromFile(c).stored[k]) {
      assert FullStored(H, c.stored[k], n);
      match c.stored[k]
      case Base(p) => PageBackReread(H, p, n);
      case Delta(d) => ItemsBackFull(d);
    }
  }

  /** The checkpoint that a load starts from has child j. */
  predicate BaseHas(c: Chain, current: nat, v: nat, j: Nibble) {
    var base := BasePage(c, LoadStart(c, current, v).1);
    base.Found? && j in base.p.kids
  }

  /** The load replays a root item that sets slot j. */
  predicate Restored(c: Chain, current: nat, v: nat, j: Nibble) {
    DeltasSet(LoadStart(c, current, v).0, v, j)
  }

  /** After a load from files a slot is lost exactly if its child was in the checkpoint and
      no replayed root item sets it. */
  lemma LoadedSlotIff(H: Hash, c: Chain, n: nat, current: nat, v: nat)
    requires FullChain(H, c, n) && LoadPage(c, current, v).Found?
    ensures var m := LoadPage(FromFile(c), current, v);
            m.Found? && ReadAgain(LoadPage(c, current, v).p, m.p) &&
            forall j: Nibble ::
              Intact(LoadPage(c, current, v).p, m.p, j) <==> (BaseHas(c, current, v, j) ==> Restored(c, current, v, j))
  {
    var d := FromFile(c);
    FromFileRereads(H, c, n);
    LoadReread(c, d, current, v);
    LoadIs(c, current, v);
    LoadIs(d, current, v);
    var b := LoadStart(c, current, v).1;
    SameStart(c, d, current, v);
    EmptyReread();
    if b.version > 0 {
      assert RereadStored(c.stored[b], d.stored[b]) && FullStored(H, c.stored[b], n);
      PageBackReread(H, c.stored[b].p, n);
    }
    forall j: Nibble
      ensures SlotKept(c, d, current, v, j) <==> (BaseHas(c, current, v, j) ==> Restored(c, current, v, j))
    {
    }
  }

  /** The root's proof node for child i, from a page loaded from files, is right if and only
      if replay sets the slot of every other child of the checkpoint. */
  lemma LoadedProofIff(H: Hash, c: Chain, n: nat, current: nat, v: nat, level: nat, i: Nibble)
    requires Injective(H) && FullChain(H, c, n) && LoadPage(c, current, v).Found?
    requires var p := LoadPage(c, current, v).p;
             Shaped(p, n) && Hashed(H, p) && p.root.Some? && p.root.value.Index? && i in p.kids
    ensures var p, m := LoadPage(c, current, v).p, LoadPage(FromFile(c), current, v);
            m.Found? && m.p.root.Some? && m.p.root.value.Index? && m.p.root.value.hash == p.root.value.hash &&
            (NodeHash(H, ProofOf(m.p.root.value, level, i), p.kids[i].hash) == p.root.value.hash <==>
             forall j: Nibble :: j != i && BaseHas(c, current, v, j) ==> Restored(c, current, v, j))
  {
    LoadedSlotIff(H, c, n, current, v);
    ProofNodeIff(H, LoadPage(c, current, v).p, LoadPage(FromFile(c), current, v).p, n, level, i);
  }

  /** The root hash that a commit computes on a page loaded from files is right if and only
      if every child of the checkpoint has its slot set by replay or is reached by a call. */
  lemma LoadedUpdatesIff(H: Hash, c: Chain, n: nat, current: nat, v: nat, pid: Path, w: nat, calls: seq<Call>)
    requires Injective(H) && n > 0 && ValidCalls(calls, n) && calls != []
    requires FullChain(H, c, n) && LoadPage(c, current, v).Found? && Shaped(LoadPage(c, current, v).p, n)
    ensures var m := LoadPage(FromFile(c), current, v);
            m.Found? && Shaped(m.p, n) &&
            var p', q' := Updates(H, LoadPage(c, current, v).p, pid, w, calls, n), Updates(H, m.p, pid, w, calls, n);
            p'.root.Some? && q'.root.Some? &&
            (q'.root.value.hash == p'.root.value.hash <==>
             forall j: Nibble :: BaseHas(c, current, v, j) ==> Restored(c, current, v, j) || Reaches(calls, j))
  {
    LoadedSlotIff(H, c, n, current, v);
    UpdatesHashIff(H, LoadPage(c, current, v).p, LoadPage(FromFile(c), current, v).p, pid, w, calls, n);
  }

  /* ---- A page on which both fail ---- */

  function Bytes32(b: Byte): (s: Bytes)
    ensures |s| == HASH_SIZE && s[0] == b
  {
    seq(HASH_SIZE, _ => b)
  }

  /** A hash function without collisions that gives two leaves a root hash of 32 bytes. */
  function TwoLeafHash(x: Bytes): Bytes {
    if x == Bytes32(1) + Bytes32(2) then Bytes32(0) else [1] + x
  }

  /** An index node over two leaves. */
  function TwoLeaves(): Page {
    Page(1, Some(Index(1, Bytes32(0), map[0 := Slot(1, Bytes32(1)), 1 := Slot(1, Bytes32(2))])),
         map[0 := Leaf(1, [], NO_LOCATION, Bytes32(1)), 1 := Leaf(1, [], NO_LOCATION, Bytes32(2))])
  }

  lemma TwoLeafInjective()
    ensures Injective(TwoLeafHash)
  {
    forall a, b | TwoLeafHash(a) == TwoLeafHash(b) ensures a == b {
      assert TwoLeafHash(a)[0] == TwoLeafHash(b)[0];
      assert ([1] + a)[1..] == a && ([1] + b)[1..] == b;
    }
  }

  lemma {:induction false} JoinNone(parts: seq<Bytes>)
    requires forall j :: 0 <= j < |parts| ==> parts[j] == []
    ensures Join(parts) == []
    decreases |parts|
  {
    if parts != [] { JoinNone(parts[1..]); }
  }

  lemma TwoLeavesJoin(slots: map<Nibble, Slot>)
    requires slots == map[0 := Slot(1, Bytes32(1)), 1 := Slot(1, Bytes32(2))]
    ensures Join(SlotHashes(slots)) == Bytes32(1) + Bytes32(2)
  {
    var s := SlotHashes(slots);
    assert s[0] == Bytes32(1) && s[1] == Bytes32(2);
    JoinNone(s[2..]);
    assert Join(s) == s[0] + Join(s[1..]) && s[1..][1..] == s[2..];
    assert Join(s[1..]) == s[1..][0] + Join(s[2..]);
  }

  lemma TwoLeavesFull()
    ensures Shaped(TwoLeaves(), 1) && FullPage(TwoLeaves()) && StampedPage(TwoLeaves())
  {
  }

  lemma TwoLeavesHashed()
    ensures Hashed(TwoLeafHash, TwoLeaves())
  {
    TwoLeavesJoin(TwoLeaves().root.value.slots);
  }

  lemma TwoLeavesReady()
    ensures var p := TwoLeaves();
            Injective(TwoLeafHash) && Shaped(p, 1) && Hashed(TwoLeafHash, p) && FullPage(p) && StampedPage(p) &&
            p.kids.Keys == {0, 1}
  {
    TwoLeafInjective();
    TwoLeavesFull();
    TwoLeavesHashed();
  }

  /** The page with two children, read back: its proof node does not hash to its root hash. */
  lemma RereadProofFails(level: nat)
    ensures var p := TwoLeaves();
            var back := PageBack(p).root.value;
            back.Index? && back.hash == p.root.value.hash &&
            NodeHash(TwoLeafHash, ProofOf(back, level, 0), p.kids[0].hash) != p.root.value.hash
  {
    TwoLeavesReady();
    assert 1 in TwoLeaves().kids;
    RereadProofIff(TwoLeafHash, TwoLeaves(), 1, level, 0);
  }

  /** And a root hash computed on top of it is wrong, unless both leaves are written. */
  lemma RereadUpdatesFail(p: Page, q: Page, pid: Path, w: nat, calls: seq<Call>)
    requires p == TwoLeaves() && q == PageBack(p) && ValidCalls(calls, 1) && calls != []
    ensures Shaped(p, 1) && Shaped(q, 1)
    ensures var p', q' := Updates(TwoLeafHash, p, pid, w, calls, 1), Updates(TwoLeafHash, q, pid, w, calls, 1);
            p'.root.Some? && q'.root.Some? &&
            (q'.root.value.hash == p'.root.value.hash <==> Reaches(calls, 0) && Reaches(calls, 1))
  {
    TwoLeavesReady();
    RereadUpdatesIff(TwoLeafHash, p, 1, pid, w, calls);
    BothReached(p, calls);
  }

  lemma BothReached(p: Page, calls: seq<Call>)
    requires p.kids.Keys == {0, 1}
    ensures (forall j :: j in p.kids ==> Reaches(calls, j)) <==> Reaches(calls, 0) && Reaches(calls, 1)
  {
    assert 0 in p.kids.Keys && 1 in p.kids.Keys;
  }
}
