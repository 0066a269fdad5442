/** What a page must hold, in terms of the simple store, and why updating it with one call
    per touched child keeps that. */
module PageSpecs {
  import opened Types
  import opened Pages
  import opened Replays
  import opened PageCommits
  import opened Chains
  import opened ValueLog
  import opened History

  /** How many nibbles of a key remain at a page id, at most two: its kind. */
  function Kind(L: nat, pid: Path): nat {
    if |pid| + 2 <= L then 2 else if |pid| + 1 == L then 1 else 0
  }

  predicate PageId(L: nat, pid: Path) { |pid| <= L && |pid| % 2 == 0 }

  /** Slot j of the second-level index at i. */
  function KidSlot(p: Page, i: Nibble, j: Nibble): Slot {
    if i in p.kids && p.kids[i].Index? && j in p.kids[i].slots then p.kids[i].slots[j] else NO_SLOT
  }

  function SlotsHash(H: Hash, slots: map<Nibble, Slot>): Bytes { H(Join(SlotHashes(slots))) }

  /** Every slot of the root is its child's version and hash, and every index node's hash
      is the hash of its sixteen slot hashes. */
  ghost predicate Hashed(H: Hash, p: Page) {
    p.root.Some? && p.root.value.Index? ==>
      p.root.value.hash == SlotsHash(H, p.root.value.slots) &&
      forall i :: i in p.kids ==> HashedKid(H, p, i)
  }

  ghost predicate HashedKid(H: Hash, p: Page, i: Nibble) {
    && i in p.kids && p.root.Some? && p.root.value.Index? && i in p.root.value.slots
    && p.root.value.slots[i] == Slot(p.kids[i].version, p.kids[i].hash)
    && (p.kids[i].Index? ==> p.kids[i].hash == SlotsHash(H, p.kids[i].slots))
  }

  function KidSlots(kids: map<Nibble, Node>): map<Nibble, Slot> {
    map i | i in kids :: Slot(kids[i].version, kids[i].hash)
  }

  /** Every root slot copied from the child it belongs to. */
  function Recover(p: Page): Page {
    if p.root.None? || p.root.value.Leaf? then p
    else p.(root := Some(p.root.value.(slots := KidSlots(p.kids))))
  }

  /** What the root has in slot j. */
  function RootHash(p: Page, j: Nibble): Bytes {
    if p.root.Some? && p.root.value.Index? then SlotHash(p.root.value.slots, j) else []
  }

  /** The same, with the root's slots left out where they may have been lost. */
  ghost predicate HashedUpTo(H: Hash, p: Page, loss: Loss) {
    match loss
    case Lossless => Hashed(H, p)
    case Slotless => Hashed(H, Recover(p))
    case Hashless => true
  }

  lemma UpdateHashed(H: Hash, p: Page, pid: Path, w: nat, c: Call)
    requires ValidCall(c, |c.nibbles|) && Shaped(p, |c.nibbles|) && Hashed(H, p)
    ensures Hashed(H, UpdatePage(H, p, pid, w, c))
  {
    if |c.nibbles| > 0 {
      var q := UpdatePage(H, p, pid, w, c);
      forall i | i in q.kids ensures HashedKid(H, q, i) {
        if i != c.nibbles[0] {
          assert p.root.Some? && HashedKid(H, p, i);
        }
      }
    }
  }

  lemma {:induction false} UpdatesHashed(H: Hash, p: Page, pid: Path, w: nat, calls: seq<Call>, n: nat)
    requires Shaped(p, n) && ValidCalls(calls, n) && Hashed(H, p)
    ensures Hashed(H, Updates(H, p, pid, w, calls, n))
    decreases |calls|
  {
    if calls != [] {
      UpdatePageShape(H, p, pid, w, calls[0]);
      UpdateHashed(H, p, pid, w, calls[0]);
      UpdatesHashed(H, UpdatePage(H, p, pid, w, calls[0]), pid, w, calls[1..], n);
    }
  }

  /* ---- Pointwise effect of a list of calls ---- */

  ghost predicate Distinct(calls: seq<Call>) {
    forall x, y :: 0 <= x < y < |calls| ==> calls[x].nibbles != calls[y].nibbles
  }

  ghost predicate Calls(calls: seq<Call>, nibbles: Path) {
    exists x :: 0 <= x < |calls| && calls[x].nibbles == nibbles
  }

  lemma DistinctTail(calls: seq<Call>)
    requires Distinct(calls) && calls != []
    ensures Distinct(calls[1..]) && !Calls(calls[1..], calls[0].nibbles)
  {
    assert forall x :: 0 <= x < |calls| - 1 ==> calls[1..][x] == calls[x + 1];
  }

  /** Which children exist after a list of calls. */
  ghost predicate Reaches(calls: seq<Call>, i: Nibble) {
    exists x :: 0 <= x < |calls| && calls[x].nibbles != [] && calls[x].nibbles[0] == i
  }

  lemma ReachesTail(calls: seq<Call>, j: Nibble)
    requires calls != [] && calls[0].nibbles != []
    ensures Reaches(calls, j) <==> j == calls[0].nibbles[0] || Reaches(calls[1..], j)
  {
    if Reaches(calls, j) {
      var x :| 0 <= x < |calls| && calls[x].nibbles != [] && calls[x].nibbles[0] == j;
      if x > 0 { assert calls[1..][x - 1].nibbles[0] == j; }
    }
    if Reaches(calls[1..], j) {
      var x :| 0 <= x < |calls[1..]| && calls[1..][x].nibbles != [] && calls[1..][x].nibbles[0] == j;
      assert calls[x + 1].nibbles[0] == j;
    }
  }

  lemma {:induction false} UpdatesKids(H: Hash, p: Page, pid: Path, w: nat, calls: seq<Call>, n: nat, i: Nibble)
    requires Shaped(p, n) && ValidCalls(calls, n) && n > 0
    ensures i in Updates(H, p, pid, w, calls, n).kids <==> i in p.kids || Reaches(calls, i)
    decreases |calls|
  {
    if calls != [] {
      UpdatePageShape(H, p, pid, w, calls[0]);
      var q := UpdatePage(H, p, pid, w, calls[0]);
      UpdatesKids(H, q, pid, w, calls[1..], n, i);
      assert q.kids.Keys == p.kids.Keys + {calls[0].nibbles[0]};
      if Reaches(calls, i) {
        var x :| 0 <= x < |calls| && calls[x].nibbles != [] && calls[x].nibbles[0] == i;
        if x > 0 { assert calls[1..][x - 1].nibbles[0] == i; }
      }
      if Reaches(calls[1..], i) {
        var x :| 0 <= x < |calls[1..]| && calls[1..][x].nibbles != [] && calls[1..][x].nibbles[0] == i;
        assert calls[x + 1].nibbles[0] == i;
      }
    }
  }

  lemma UpdateSlot(H: Hash, p: Page, pid: Path, w: nat, c: Call, i: Nibble, j: Nibble)
    requires |c.nibbles| == 2 && Shaped(p, 2)
    ensures KidSlot(UpdatePage(H, p, pid, w, c), i, j) ==
            if c.nibbles == [i, j] then Slot(w, c.childHash) else KidSlot(p, i, j)
  {
    assert c.nibbles == [c.nibbles[0], c.nibbles[1]];
  }

  /** A call for [i, j] leaves (w, its child hash) in that slot; other slots keep what they had. */
  lemma {:induction false} UpdatesSlot(H: Hash, p: Page, pid: Path, w: nat, calls: seq<Call>, i: Nibble, j: Nibble)
    requires Shaped(p, 2) && ValidCalls(calls, 2) && Distinct(calls)
    ensures !Calls(calls, [i, j]) ==> KidSlot(Updates(H, p, pid, w, calls, 2), i, j) == KidSlot(p, i, j)
    ensures forall x :: 0 <= x < |calls| && calls[x].nibbles == [i, j] ==>
              KidSlot(Updates(H, p, pid, w, calls, 2), i, j) == Slot(w, calls[x].childHash)
    decreases |calls|
  {
    if calls != [] {
      UpdatePageShape(H, p, pid, w, calls[0]);
      UpdateSlot(H, p, pid, w, calls[0], i, j);
      UpdatesSlot(H, UpdatePage(H, p, pid, w, calls[0]), pid, w, calls[1..], i, j);
      DistinctTail(calls);
      forall x | 0 <= x < |calls| && calls[x].nibbles == [i, j]
        ensures KidSlot(Updates(H, p, pid, w, calls, 2), i, j) == Slot(w, calls[x].childHash)
      {
        if x > 0 { assert calls[1..][x - 1] == calls[x]; }
      }
    }
  }

  /** A leaf right after UpdateNode. */
  ghost predicate LeafIs(H: Hash, n: Node, w: nat, loc: Location, value: Bytes) {
    n.Leaf? && n.version == w && n.loc == loc && n.hash == LeafHash(H, value)
  }

  /** The same for the leaves of a page whose keys have one nibble left. */
  lemma {:induction false} UpdatesLeaf(H: Hash, p: Page, pid: Path, w: nat, calls: seq<Call>, i: Nibble)
    requires Shaped(p, 1) && ValidCalls(calls, 1) && Distinct(calls)
    ensures var q := Updates(H, p, pid, w, calls, 1);
            (!Calls(calls, [i]) && i in p.kids ==> i in q.kids && q.kids[i] == p.kids[i]) &&
            (forall x :: 0 <= x < |calls| && calls[x].nibbles == [i] ==>
               i in q.kids && LeafIs(H, q.kids[i], w, calls[x].loc, calls[x].value))
    decreases |calls|
  {
    if calls != [] {
      UpdatePageShape(H, p, pid, w, calls[0]);
      var p1 := UpdatePage(H, p, pid, w, calls[0]);
      assert calls[0].nibbles == [calls[0].nibbles[0]];
      UpdatesLeaf(H, p1, pid, w, calls[1..], i);
      DistinctTail(calls);
      var q := Updates(H, p, pid, w, calls, 1);
      assert calls[0].nibbles == [i] ==> i in p1.kids && LeafIs(H, p1.kids[i], w, calls[0].loc, calls[0].value);
      forall x | 0 <= x < |calls| && calls[x].nibbles == [i]
        ensures i in q.kids && LeafIs(H, q.kids[i], w, calls[x].loc, calls[x].value)
      {
        if x > 0 { assert calls[1..][x - 1] == calls[x]; }
      }
    }
  }

  /* ---- Updating a page whose root has lost slots ---- */

  predicate SlotRight(p: Page, j: Nibble) {
    j in p.kids && RootHash(p, j) == p.kids[j].hash
  }

  /** Every child whose slot was lost has a key in the batch. */
  ghost predicate Refilled(p: Page, pid: Path, batch: map<Path, Bytes>) {
    forall j :: j in p.kids ==> SlotRight(p, j) || Touches(batch, pid + [j])
  }

  ghost predicate KidsHashed(H: Hash, p: Page) {
    forall i :: i in p.kids && p.kids[i].Index? ==> p.kids[i].hash == SlotsHash(H, p.kids[i].slots)
  }

  lemma UpdateRight(H: Hash, p: Page, pid: Path, w: nat, c: Call, n: nat)
    requires n > 0 && ValidCall(c, n) && Shaped(p, n) && KidsHashed(H, p)
    ensures var q := UpdatePage(H, p, pid, w, c);
            Shaped(q, n) && KidsHashed(H, q) && q.root.Some? && q.root.value.Index? &&
            q.root.value.hash == SlotsHash(H, q.root.value.slots) &&
            (forall j :: j in q.kids ==> j == c.nibbles[0] || j in p.kids) &&
            forall j :: j in q.kids && (j == c.nibbles[0] || SlotRight(p, j)) ==> SlotRight(q, j)
  {
  }

  lemma RightIsHashed(H: Hash, p: Page, n: nat)
    requires Shaped(p, n) && KidsHashed(H, p) && p.root.Some? && p.root.value.Index?
    requires p.root.value.hash == SlotsHash(H, p.root.value.slots) && forall j :: j in p.kids ==> SlotRight(p, j)
    ensures Hashed(H, Recover(p))
  {
    var s, t := SlotHashes(p.root.value.slots), SlotHashes(KidSlots(p.kids));
    forall j | 0 <= j < |s| ensures s[j] == t[j] {
      var i: Nibble := j;
      if i in p.kids { assert SlotRight(p, i); }
    }
    assert s == t;
    forall i | i in p.kids ensures HashedKid(H, Recover(p), i) {}
  }

  /** If every lost slot is set by some call, the root hash is right again. */
  lemma {:induction false} UpdatesRecovered(H: Hash, p: Page, pid: Path, w: nat, calls: seq<Call>, n: nat)
    requires n > 0 && Shaped(p, n) && ValidCalls(calls, n) && calls != [] && KidsHashed(H, p)
    requires forall j :: j in p.kids ==> SlotRight(p, j) || Reaches(calls, j)
    ensures Hashed(H, Recover(Updates(H, p, pid, w, calls, n)))
    decreases |calls|
  {
    var q := UpdatePage(H, p, pid, w, calls[0]);
    UpdateRight(H, p, pid, w, calls[0], n);
    forall j | j in q.kids ensures SlotRight(q, j) || Reaches(calls[1..], j) {
      ReachesTail(calls, j);
      assert j == calls[0].nibbles[0] || (j in p.kids && (SlotRight(p, j) || Reaches(calls, j)));
    }
    if calls[1..] == [] {
      RightIsHashed(H, q, n);
    } else {
      UpdatesRecovered(H, q, pid, w, calls[1..], n);
    }
  }

  /* ---- The specification of a page ---- */

  ghost predicate Reads(log: Log, loc: Location, value: Bytes) {
    ValidLocation(log, loc) && ReadValue(log, loc) == FirstLine(value)
  }

  ghost predicate LeafSpec(H: Hash, log: Log, n: Node, value: Bytes, loss: Loss) {
    n.Leaf? && Reads(log, n.loc, value) && (!loss.Hashless? ==> n.hash == LeafHash(H, value))
  }

  function ChildHash(H: Hash, m: map<Path, Bytes>, q: Path, L: nat): Bytes {
    if Touches(m, q) then Merkle(H, m, q, L) else []
  }

  ghost predicate SlotSpec(H: Hash, L: nat, h: seq<Commit>, p: Page, pid: Path, i: Nibble, j: Nibble, loss: Loss) {
    KidSlot(p, i, j).version == LastTouch(h, pid + [i, j]) &&
    (!loss.Hashless? ==> KidSlot(p, i, j).hash == ChildHash(H, Contents(h), pid + [i, j], L))
  }

  /** The page pid after the commits h: a child exists exactly where some key was written,
      leaves locate the last value, slots name the last commit that touched their page. */
  ghost predicate PageSpec(H: Hash, L: nat, h: seq<Commit>, log: Log, pid: Path, p: Page, loss: Loss) {
    var n, m := Kind(L, pid), Contents(h);
    && Shaped(p, n) && p.root.Some? && HashedUpTo(H, p, loss)
    && (n == 0 ==> pid in m && LeafSpec(H, log, p.root.value, m[pid], loss))
    && (n > 0 ==> forall i: Nibble :: i in p.kids <==> Touches(m, pid + [i]))
    && (n == 1 ==> forall i: Nibble :: i in p.kids ==>
          pid + [i] in m && LeafSpec(H, log, p.kids[i], m[pid + [i]], loss))
    && (n == 2 ==> forall i: Nibble, j: Nibble :: SlotSpec(H, L, h, p, pid, i, j, loss))
  }

  lemma SpecLog(H: Hash, L: nat, h: seq<Commit>, log: Log, log': Log, pid: Path, p: Page, loss: Loss)
    requires PageId(L, pid) && PageSpec(H, L, h, log, pid, p, loss) && Extends(log, log')
    ensures PageSpec(H, L, h, log', pid, p, loss)
  {
    var m := Contents(h);
    if Kind(L, pid) == 0 { ExtendsKeeps(log, log', p.root.value.loc); }
    if Kind(L, pid) == 1 {
      forall i: Nibble | i in p.kids ensures LeafSpec(H, log', p.kids[i], m[pid + [i]], loss) {
        ExtendsKeeps(log, log', p.kids[i].loc);
      }
    }
  }

  lemma SameKid(n: Node, m: Node, j: Nibble, loss: Loss)
    requires ViewNode(n, loss) == ViewNode(m, loss)
    ensures n.Leaf? == m.Leaf? && n.version == m.version && (!loss.Hashless? ==> n.hash == m.hash)
    ensures n.Leaf? ==> n.loc == m.loc
    ensures n.Index? ==> (j in n.slots) == (j in m.slots) && (!loss.Hashless? ==> n.slots == m.slots)
    ensures n.Index? && j in n.slots ==> n.slots[j].version == m.slots[j].version
  {
    if n.Index? && loss.Hashless? {
      assert ViewSlots(n.slots, loss).Keys == n.slots.Keys && ViewSlots(m.slots, loss).Keys == m.slots.Keys;
      assert j in n.slots ==> ViewSlots(n.slots, loss)[j] == Slot(n.slots[j].version, []);
      assert j in m.slots ==> ViewSlots(m.slots, loss)[j] == Slot(m.slots[j].version, []);
    }
  }

  lemma SameHashed(H: Hash, p: Page, q: Page)
    requires Same(p, q, Lossless) && Hashed(H, p)
    ensures Hashed(H, q)
  {
    SameParts(p, q, Lossless);
    if q.root.Some? && q.root.value.Index? {
      forall i | i in q.kids ensures HashedKid(H, q, i) {
        assert HashedKid(H, p, i);
        SameKid(p.kids[i], q.kids[i], 0, Lossless);
      }
    }
  }

  lemma RecoverSame(p: Page, q: Page)
    requires Same(p, q, Slotless)
    ensures Same(Recover(p), Recover(q), Lossless)
  {
    SameParts(p, q, Slotless);
    forall i | i in p.kids ensures ViewNode(p.kids[i], Lossless) == ViewNode(q.kids[i], Lossless) {
      assert ViewNode(p.kids[i], Slotless) == ViewNode(q.kids[i], Slotless);
    }
    forall i | i in p.kids ensures KidSlots(p.kids)[i] == KidSlots(q.kids)[i] {
      SameKid(p.kids[i], q.kids[i], 0, Slotless);
    }
    assert KidSlots(p.kids) == KidSlots(q.kids);
    SameFromParts(Recover(p), Recover(q), Lossless);
  }

  lemma SameHashedUpTo(H: Hash, p: Page, q: Page, loss: Loss)
    requires Same(p, q, loss) && HashedUpTo(H, p, loss)
    ensures HashedUpTo(H, q, loss)
  {
    match loss
    case Lossless => SameHashed(H, p, q);
    case Slotless =>
      RecoverSame(p, q);
      SameHashed(H, Recover(p), Recover(q));
    case Hashless =>
  }

  lemma SameSlot(p: Page, q: Page, i: Nibble, j: Nibble, loss: Loss)
    requires Same(p, q, loss)
    ensures KidSlot(p, i, j).version == KidSlot(q, i, j).version
    ensures !loss.Hashless? ==> KidSlot(p, i, j).hash == KidSlot(q, i, j).hash
  {
    SameParts(p, q, loss);
    if i in p.kids { SameKid(p.kids[i], q.kids[i], j, loss); }
  }

  /** A faithful copy of a page meets the page's specification. */
  lemma SpecSame(H: Hash, L: nat, h: seq<Commit>, log: Log, pid: Path, p: Page, q: Page, loss: Loss)
    requires PageId(L, pid) && PageSpec(H, L, h, log, pid, p, loss) && Same(p, q, loss)
    ensures PageSpec(H, L, h, log, pid, q, loss)
  {
    var n, m := Kind(L, pid), Contents(h);
    SameParts(p, q, loss);
    SameShape(p, q, n, loss);
    SameHashedUpTo(H, p, q, loss);
    forall i: Nibble | n == 1 && i in q.kids ensures LeafSpec(H, log, q.kids[i], m[pid + [i]], loss) {
      SameKid(p.kids[i], q.kids[i], 0, loss);
    }
    forall i: Nibble, j: Nibble | n == 2 ensures SlotSpec(H, L, h, q, pid, i, j, loss) {
      assert SlotSpec(H, L, h, p, pid, i, j, loss);
      SameSlot(p, q, i, j, loss);
    }
  }

  /* ---- The specification is kept by exactly the right calls ---- */

  /** The page before the batch: as specified, or never touched. */
  ghost predicate PageBefore(H: Hash, L: nat, h: seq<Commit>, log: Log, pid: Path, p: Page, loss: Loss) {
    if LastTouch(h, pid) == 0 then p == EMPTY_PAGE else PageSpec(H, L, h, log, pid, p, loss)
  }

  /** One call for each touched child, carrying its data. */
  ghost predicate CallsFor(H: Hash, L: nat, h: seq<Commit>, c: Commit, log: Log, pid: Path, calls: seq<Call>,
                           loss: Loss)
  {
    && ValidCalls(calls, Kind(L, pid)) && Distinct(calls)
    && (forall nibs: Path :: |nibs| == Kind(L, pid) ==> (Calls(calls, nibs) <==> Touches(c.batch, pid + nibs)))
    && (forall x :: 0 <= x < |calls| ==> CallFor(H, L, h, c, log, pid, calls[x], loss))
  }

  ghost predicate CallFor(H: Hash, L: nat, h: seq<Commit>, c: Commit, log: Log, pid: Path, call: Call, loss: Loss) {
    var q := pid + call.nibbles;
    if |call.nibbles| == 2 then !loss.Hashless? ==> call.childHash == ChildHash(H, Contents(h + [c]), q, L)
    else q in c.batch && call.value == c.batch[q] && Reads(log, call.loc, c.batch[q])
  }

  lemma ContentsAppend(h: seq<Commit>, c: Commit)
    ensures Contents(h + [c]) == Contents(h) + c.batch
  {
    assert (h + [c])[..|h|] == h;
  }

  lemma TouchAppend(h: seq<Commit>, c: Commit, p: Path)
    ensures LastTouch(h + [c], p) == if Touches(c.batch, p) then c.version else LastTouch(h, p)
  {
    assert (h + [c])[..|h|] == h;
  }

  lemma UntouchedAgrees(h: seq<Commit>, c: Commit, p: Path)
    requires !Touches(c.batch, p)
    ensures AgreeOn(Contents(h), Contents(h + [c]), p)
  {
    ContentsAppend(h, c);
  }

  /** A prefix with room for one more nibble is touched through one of its sixteen extensions. */
  lemma TouchesNext(m: map<Path, Bytes>, p: Path, L: nat)
    requires |p| < L && forall k :: k in m ==> |k| == L
    ensures Touches(m, p) <==> exists i: Nibble :: Touches(m, p + [i])
  {
    if Touches(m, p) {
      var k :| k in m && p <= k;
      assert p + [k[|p|]] <= k;
      assert Touches(m, p + [k[|p|]]);
    }
    if exists i: Nibble :: Touches(m, p + [i]) {
      var i: Nibble :| Touches(m, p + [i]);
      TouchesShorter(m, p, p + [i]);
    }
  }

  lemma SlotAfter(H: Hash, L: nat, h: seq<Commit>, c: Commit, log: Log, pid: Path, p: Page, calls: seq<Call>,
                  i: Nibble, j: Nibble, loss: Loss)
    requires PageId(L, pid) && Kind(L, pid) == 2 && Shaped(p, 2)
    requires ValidHistory(h + [c], L) && SlotSpec(H, L, h, p, pid, i, j, loss)
    requires CallsFor(H, L, h, c, log, pid, calls, loss)
    ensures SlotSpec(H, L, h + [c], Updates(H, p, pid, c.version, calls, 2), pid, i, j, loss)
  {
    UpdatesSlot(H, p, pid, c.version, calls, i, j);
    TouchAppend(h, c, pid + [i, j]);
    if Calls(calls, [i, j]) {
      var x :| 0 <= x < |calls| && calls[x].nibbles == [i, j];
      assert CallFor(H, L, h, c, log, pid, calls[x], loss);
    } else {
      UntouchedAgrees(h, c, pid + [i, j]);
      AgreeTouches(Contents(h), Contents(h + [c]), pid + [i, j]);
      AgreeMerkle(H, Contents(h), Contents(h + [c]), pid + [i, j], L);
    }
  }

  lemma EmptySlot(H: Hash, L: nat, h: seq<Commit>, pid: Path, i: Nibble, j: Nibble, loss: Loss)
    requires PageId(L, pid) && Kind(L, pid) == 2 && ValidHistory(h, L) && LastTouch(h, pid) == 0
    ensures SlotSpec(H, L, h, EMPTY_PAGE, pid, i, j, loss)
  {
    TouchShorter(h, pid, pid + [i, j], L);
    TouchIsWritten(h, pid + [i, j], L);
  }

  lemma ReachesTouched(L: nat, batch: map<Path, Bytes>, pid: Path, calls: seq<Call>, i: Nibble)
    requires PageId(L, pid) && Kind(L, pid) > 0 && ValidCalls(calls, Kind(L, pid)) && forall k :: k in batch ==>
             |k| == L
    requires forall nibs: Path :: |nibs| == Kind(L, pid) ==> (Calls(calls, nibs) <==> Touches(batch, pid + nibs))
    ensures Reaches(calls, i) <==> Touches(batch, pid + [i])
  {
    if Reaches(calls, i) {
      var x :| 0 <= x < |calls| && calls[x].nibbles != [] && calls[x].nibbles[0] == i;
      assert Calls(calls, calls[x].nibbles);
      TouchesShorter(batch, pid + [i], pid + calls[x].nibbles);
    }
    if Touches(batch, pid + [i]) {
      if Kind(L, pid) == 1 {
        assert Calls(calls, [i]);
      } else {
        TouchesNext(batch, pid + [i], L);
        var j: Nibble :| Touches(batch, pid + [i] + [j]);
        assert pid + [i] + [j] == pid + [i, j];
        assert Calls(calls, [i, j]);
      }
    }
  }

  lemma KidsAfter(H: Hash, L: nat, h: seq<Commit>, c: Commit, log: Log, pid: Path, p: Page, calls: seq<Call>,
                  i: Nibble, loss: Loss)
    requires PageId(L, pid) && Kind(L, pid) > 0 && Shaped(p, Kind(L, pid)) && ValidHistory(h + [c], L)
    requires i in p.kids <==> Touches(Contents(h), pid + [i])
    requires CallsFor(H, L, h, c, log, pid, calls, loss)
    ensures i in Updates(H, p, pid, c.version, calls, Kind(L, pid)).kids <==> Touches(Contents(h + [c]), pid + [i])
  {
    assert (h + [c])[|h|] == c;
    UpdatesKids(H, p, pid, c.version, calls, Kind(L, pid), i);
    ReachesTouched(L, c.batch, pid, calls, i);
    ContentsAppend(h, c);
    TouchesSum(Contents(h), c.batch, pid + [i]);
  }

  lemma LeafAfter(H: Hash, L: nat, h: seq<Commit>, c: Commit, log: Log, pid: Path, p: Page, calls: seq<Call>,
                  i: Nibble, loss: Loss)
    requires PageId(L, pid) && Kind(L, pid) == 1 && Shaped(p, 1) && ValidHistory(h + [c], L)
    requires i in p.kids ==> pid + [i] in Contents(h) && LeafSpec(H, log, p.kids[i], Contents(h)[pid + [i]], loss)
    requires CallsFor(H, L, h, c, log, pid, calls, loss)
    requires i in Updates(H, p, pid, c.version, calls, 1).kids
    ensures pid + [i] in Contents(h + [c])
    ensures LeafSpec(H, log, Updates(H, p, pid, c.version, calls, 1).kids[i], Contents(h + [c])[pid + [i]], loss)
  {
    assert (h + [c])[|h|] == c;
    ContentsAppend(h, c);
    UpdatesLeaf(H, p, pid, c.version, calls, i);
    UpdatesKids(H, p, pid, c.version, calls, 1, i);
    ReachesTouched(L, c.batch, pid, calls, i);
    TouchKey(c.batch, pid + [i], L);
    if Calls(calls, [i]) {
      var x :| 0 <= x < |calls| && calls[x].nibbles == [i];
      assert CallFor(H, L, h, c, log, pid, calls[x], loss);
    }
  }

  lemma FirstTwoDiffer(calls: seq<Call>)
    requires Distinct(calls)
    ensures |calls| < 2 || calls[0].nibbles != calls[1].nibbles
  {
  }

  lemma OnlyLeaf(H: Hash, L: nat, h: seq<Commit>, c: Commit, log: Log, pid: Path, p: Page, calls: seq<Call>, loss: Loss)
    requires PageId(L, pid) && |pid| == L && Shaped(p, 0) && Touches(c.batch, pid) && ValidHistory(h + [c], L)
    requires CallsFor(H, L, h, c, log, pid, calls, loss)
    ensures pid in Contents(h + [c])
    ensures LeafSpec(H, log, Updates(H, p, pid, c.version, calls, 0).root.value, Contents(h + [c])[pid], loss)
  {
    assert (h + [c])[|h|] == c;
    ContentsAppend(h, c);
    assert pid + [] == pid;
    assert Calls(calls, []);
    FirstTwoDiffer(calls);
    assert CallFor(H, L, h, c, log, pid, calls[0], loss);
    assert calls[1..] == [];
    var q := UpdatePage(H, p, pid, c.version, calls[0]);
    assert Updates(H, p, pid, c.version, calls, 0) == q by { UpdatePageShape(H, p, pid, c.version, calls[0]); }
  }

  /** Updating a page with exactly the calls of a batch takes it from the specification
      before the batch to the specification after it. */
  lemma SpecAfter(H: Hash, L: nat, h: seq<Commit>, c: Commit, log: Log, pid: Path, p: Page, calls: seq<Call>,
                  loss: Loss)
    requires PageId(L, pid) && ValidHistory(h + [c], L) && ValidHistory(h, L) && Touches(c.batch, pid)
    requires PageBefore(H, L, h, log, pid, p, loss) && CallsFor(H, L, h, c, log, pid, calls, loss)
    requires loss.Slotless? ==> Refilled(p, pid, c.batch)
    ensures Shaped(p, Kind(L, pid)) && calls != []
    ensures PageSpec(H, L, h + [c], log, pid, Updates(H, p, pid, c.version, calls, Kind(L, pid)), loss)
  {
    var n, m := Kind(L, pid), Contents(h);
    CallsNonempty(L, c, pid, calls, h);
    var q := Updates(H, p, pid, c.version, calls, n);
    HashedAfter(H, L, h, c, log, pid, p, calls, loss);
    TouchIsWritten(h, pid, L);
    if n == 0 {
      OnlyLeaf(H, L, h, c, log, pid, p, calls, loss);
    } else {
      forall i: Nibble ensures i in q.kids <==> Touches(Contents(h + [c]), pid + [i]) {
        if LastTouch(h, pid) == 0 && Touches(m, pid + [i]) { TouchesShorter(m, pid, pid + [i]); }
        KidsAfter(H, L, h, c, log, pid, p, calls, i, loss);
      }
      if n == 1 {
        forall i: Nibble | i in q.kids
          ensures pid + [i] in Contents(h + [c]) && LeafSpec(H, log, q.kids[i], Contents(h + [c])[pid + [i]], loss)
        {
          LeafAfter(H, L, h, c, log, pid, p, calls, i, loss);
        }
      } else {
        forall i: Nibble, j: Nibble ensures SlotSpec(H, L, h + [c], q, pid, i, j, loss) {
          if LastTouch(h, pid) == 0 { EmptySlot(H, L, h, pid, i, j, loss); }
          SlotAfter(H, L, h, c, log, pid, p, calls, i, j, loss);
        }
      }
    }
  }

  lemma HashedAfter(H: Hash, L: nat, h: seq<Commit>, c: Commit, log: Log, pid: Path, p: Page, calls: seq<Call>,
                    loss: Loss)
    requires PageId(L, pid) && ValidHistory(h + [c], L) && Shaped(p, Kind(L, pid)) && HashedUpTo(H, p, loss)
    requires CallsFor(H, L, h, c, log, pid, calls, loss) && calls != []
    requires loss.Slotless? ==> Refilled(p, pid, c.batch)
    ensures HashedUpTo(H, Updates(H, p, pid, c.version, calls, Kind(L, pid)), loss)
  {
    assert (h + [c])[|h|] == c;
    var n := Kind(L, pid);
    if loss.Lossless? { UpdatesHashed(H, p, pid, c.version, calls, n); }
    if loss.Slotless? && n > 0 {
      forall j | j in p.kids ensures SlotRight(p, j) || Reaches(calls, j) {
        ReachesTouched(L, c.batch, pid, calls, j);
      }
      RecoveredKids(H, p);
      UpdatesRecovered(H, p, pid, c.version, calls, n);
    }
  }

  lemma RecoveredKids(H: Hash, p: Page)
    requires Hashed(H, Recover(p)) && (p.root.None? ==> p.kids == map[]) && (p.root.Some? ==> p.root.value.Index?)
    ensures KidsHashed(H, p)
  {
    forall i | i in p.kids && p.kids[i].Index? ensures p.kids[i].hash == SlotsHash(H, p.kids[i].slots) {
      assert HashedKid(H, Recover(p), i);
    }
  }

  lemma CallsNonempty(L: nat, c: Commit, pid: Path, calls: seq<Call>, h: seq<Commit>)
    requires PageId(L, pid) && ValidHistory(h + [c], L) && Touches(c.batch, pid)
    requires forall nibs: Path :: |nibs| == Kind(L, pid) ==> (Calls(calls, nibs) <==> Touches(c.batch, pid + nibs))
    ensures calls != []
  {
    assert (h + [c])[|h|] == c;
    var k :| k in c.batch && pid <= k;
    var nibs := k[|pid|..|pid| + Kind(L, pid)];
    assert pid + nibs <= k;
    assert Touches(c.batch, pid + nibs);
  }

  /* ---- Hashes of specified pages are Merkle hashes ---- */

  lemma KidSlotIsMerkle(H: Hash, L: nat, h: seq<Commit>, p: Page, pid: Path, i: Nibble, j: Nibble)
    requires |pid| + 2 <= L && i in p.kids && p.kids[i].Index?
    requires SlotSpec(H, L, h, p, pid, i, j, Lossless)
    ensures SlotHash(p.kids[i].slots, j) == ChildHash(H, Contents(h), pid + [i] + [j], L)
  {
    assert pid + [i] + [j] == pid + [i, j];
  }

  lemma SlotsFrom(H: Hash, L: nat, m: map<Path, Bytes>, q: Path, slots: map<Nibble, Slot>)
    requires |q| < L && forall j: Nibble :: SlotHash(slots, j) == ChildHash(H, m, q + [j], L)
    ensures SlotHashes(slots) == ChildHashes(H, m, q, L)
  {
    var s, t := SlotHashes(slots), ChildHashes(H, m, q, L);
    forall j: Nibble ensures s[j] == t[j] {
      assert s[j] == SlotHash(slots, j);
    }
    assert s == t;
  }

  lemma KidSlotsAreMerkle(H: Hash, L: nat, h: seq<Commit>, log: Log, pid: Path, p: Page, i: Nibble)
    requires PageId(L, pid) && Kind(L, pid) == 2 && PageSpec(H, L, h, log, pid, p, Lossless) && i in p.kids
    ensures SlotHashes(p.kids[i].slots) == ChildHashes(H, Contents(h), pid + [i], L)
  {
    forall j: Nibble ensures SlotHash(p.kids[i].slots, j) == ChildHash(H, Contents(h), pid + [i] + [j], L) {
      assert SlotSpec(H, L, h, p, pid, i, j, Lossless);
      KidSlotIsMerkle(H, L, h, p, pid, i, j);
    }
    SlotsFrom(H, L, Contents(h), pid + [i], p.kids[i].slots);
  }

  lemma KidIsMerkle(H: Hash, L: nat, h: seq<Commit>, log: Log, pid: Path, p: Page, i: Nibble)
    requires PageId(L, pid) && Kind(L, pid) > 0 && PageSpec(H, L, h, log, pid, p, Lossless) && i in p.kids
    ensures p.kids[i].hash == Merkle(H, Contents(h), pid + [i], L)
  {
    assert HashedKid(H, p, i);
    if Kind(L, pid) == 2 {
      KidSlotsAreMerkle(H, L, h, log, pid, p, i);
    }
  }

  /** The hash of a page's root node is the Merkle hash of the keys below the page. */
  lemma RootIsMerkle(H: Hash, L: nat, h: seq<Commit>, log: Log, pid: Path, p: Page)
    requires PageId(L, pid) && PageSpec(H, L, h, log, pid, p, Lossless) && ValidHistory(h, L)
    ensures p.root.value.hash == Merkle(H, Contents(h), pid, L)
    ensures Kind(L, pid) > 0 ==> SlotHashes(p.root.value.slots) == ChildHashes(H, Contents(h), pid, L)
  {
    if Kind(L, pid) > 0 {
      var m := Contents(h);
      forall i: Nibble ensures SlotHash(p.root.value.slots, i) == ChildHash(H, m, pid + [i], L) {
        if i in p.kids {
          KidIsMerkle(H, L, h, log, pid, p, i);
          assert HashedKid(H, p, i);
        }
      }
      SlotsFrom(H, L, m, pid, p.root.value.slots);
    }
  }

  lemma RecoveredSpec(H: Hash, L: nat, h: seq<Commit>, log: Log, pid: Path, p: Page)
    requires PageId(L, pid) && PageSpec(H, L, h, log, pid, p, Slotless)
    ensures PageSpec(H, L, h, log, pid, Recover(p), Lossless)
  {
    var n := Kind(L, pid);
    forall i: Nibble, j: Nibble | n == 2 ensures SlotSpec(H, L, h, Recover(p), pid, i, j, Lossless) {
      assert SlotSpec(H, L, h, p, pid, i, j, Slotless);
    }
    forall i: Nibble | n == 1 && i in p.kids ensures LeafSpec(H, log, p.kids[i], Contents(h)[pid + [i]], Lossless) {
      assert LeafSpec(H, log, p.kids[i], Contents(h)[pid + [i]], Slotless);
    }
  }

  /** The root hash is the Merkle hash even if slots of the root were lost. */
  lemma RootHashIs(H: Hash, L: nat, h: seq<Commit>, log: Log, pid: Path, p: Page, loss: Loss)
    requires PageId(L, pid) && PageSpec(H, L, h, log, pid, p, loss) && ValidHistory(h, L) && !loss.Hashless?
    ensures p.root.value.hash == Merkle(H, Contents(h), pid, L)
  {
    if loss.Slotless? {
      RecoveredSpec(H, L, h, log, pid, p);
      RootIsMerkle(H, L, h, log, pid, Recover(p));
    } else {
      RootIsMerkle(H, L, h, log, pid, p);
    }
  }
}
