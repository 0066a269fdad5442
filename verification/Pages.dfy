/** One page of the trie as a value: its root node, the nodes one level below,
    what UpdatePage does to it, what it logs, and how a log is replayed. */
module Pages {
  import opened Types

  /** One entry of children_ without its node pointer. */
  datatype Slot = Slot(version: nat, hash: Bytes)

  const NO_SLOT := Slot(0, [])

  /** A key of slots is a set bit of bitmap_; an unset bit has the slot (0, ""). */
  datatype Node =
    | Leaf(version: nat, key: Bytes, loc: Location, hash: Bytes)
    | Index(version: nat, hash: Bytes, slots: map<Nibble, Slot>)

  /** version is the version in the page key; kids are the root's child pointers. */
  datatype Page = Page(version: nat, root: Option<Node>, kids: map<Nibble, Node>)

  const EMPTY_PAGE := Page(0, None, map[])

  function SlotHash(slots: map<Nibble, Slot>, i: Nibble): Bytes {
    if i in slots then slots[i].hash else []
  }

  function SlotVersion(slots: map<Nibble, Slot>, i: Nibble): nat {
    if i in slots then slots[i].version else 0
  }

  /** The sixteen slot hashes in order: the sibling_hash vector of a node proof. */
  function SlotHashes(slots: map<Nibble, Slot>): (s: seq<Bytes>)
    ensures |s| == FANOUT
    ensures forall i: Nibble :: s[i] == SlotHash(slots, i)
  {
    seq(FANOUT, i requires 0 <= i < FANOUT => SlotHash(slots, i))
  }

  function Join(parts: seq<Bytes>): Bytes {
    if parts == [] then [] else parts[0] + Join(parts[1..])
  }

  /** One step of a loop that concatenates the parts. */
  lemma JoinNext(done: Bytes, parts: seq<Bytes>, i: nat)
    requires i < |parts|
    ensures done + Join(parts[i..]) == done + parts[i] + Join(parts[i + 1..])
  {
    assert parts[i..][0] == parts[i] && parts[i..][1..] == parts[i + 1..];
  }

  /* ---- LeafNode::UpdateNode and IndexNode::UpdateNode ---- */

  function LeafHash(H: Hash, value: Bytes): Bytes {
    if value == [] then [] else H(value)
  }

  function UpdateLeaf(H: Hash, n: Node, version: nat, loc: Location, value: Bytes): Node
    requires n.Leaf?
  {
    Leaf(version, n.key, loc, LeafHash(H, value))
  }

  function UpdateIndex(H: Hash, n: Node, version: nat, i: Nibble, childHash: Bytes): Node
    requires n.Index?
  {
    var slots := n.slots[i := Slot(version, childHash)];
    Index(version, H(Join(SlotHashes(slots))), slots)
  }

  /* ---- BasePage::UpdatePage ---- */

  /** One call of UpdatePage: nibbles are the at most two nibbles after the page id. */
  datatype Call = Call(nibbles: Path, loc: Location, value: Bytes, childHash: Bytes)

  /** The nodes a page holds when n nibbles of the key remain at it
      (0: one leaf, 1: index over leaves, 2: index over indexes). */
  predicate Shaped(p: Page, n: nat) {
    match p.root
    case None => p.kids == map[]
    case Some(r) =>
      if n == 0 then r.Leaf? && p.kids == map[]
      else r.Index? && p.kids.Keys == r.slots.Keys &&
           forall i :: i in p.kids ==> if n == 1 then p.kids[i].Leaf? else p.kids[i].Index?
  }

  predicate ValidCall(c: Call, n: nat) {
    n <= 2 && |c.nibbles| == n
  }

  function RootOf(p: Page): Node {
    if p.root.Some? then p.root.value else Index(0, [], map[])
  }

  /** The child at i, created and attached by AddChild when the root has none. */
  function KidOf(p: Page, i: Nibble, default: Node): Node {
    if i in p.kids then p.kids[i] else default
  }

  function AddChild(p: Page, root: Node, i: Nibble): Node
    requires root.Index?
  {
    if i in p.kids then root else root.(slots := root.slots[i := NO_SLOT])
  }

  function UpdateKid(H: Hash, p: Page, pid: Path, version: nat, c: Call): Node
    requires ValidCall(c, |c.nibbles|) && |c.nibbles| > 0 && Shaped(p, |c.nibbles|)
  {
    var i := c.nibbles[0];
    if |c.nibbles| == 1 then
      UpdateLeaf(H, KidOf(p, i, Leaf(0, HexString(pid) + Decimal(i), NO_LOCATION, [])), version, c.loc, c.value)
    else
      UpdateIndex(H, KidOf(p, i, Index(0, [], map[c.nibbles[1] := NO_SLOT])), version, c.nibbles[1], c.childHash)
  }

  function UpdatePage(H: Hash, p: Page, pid: Path, version: nat, c: Call): Page
    requires ValidCall(c, |c.nibbles|) && Shaped(p, |c.nibbles|)
  {
    if |c.nibbles| == 0 then
      var leaf := if p.root.Some? then p.root.value else Leaf(0, HexString(pid), NO_LOCATION, []);
      Page(version, Some(UpdateLeaf(H, leaf, version, c.loc, c.value)), p.kids)
    else
      var i := c.nibbles[0];
      var kid := UpdateKid(H, p, pid, version, c);
      var root := UpdateIndex(H, AddChild(p, RootOf(p), i), version, i, kid.hash);
      Page(version, Some(root), p.kids[i := kid])
  }

  /* ---- DeltaPage::DeltaItem and BasePage::UpdateDeltaItem ---- */

  datatype Item = Item(location: nat, isLeaf: bool, version: nat, hash: Bytes,
                       loc: Location, index: Nibble, childHash: Bytes)

  /** The items AddLeafNodeUpdate and AddIndexNodeUpdate append during one UpdatePage
      call that produced page p. */
  function Logged(p: Page, version: nat, c: Call): seq<Item>
    requires ValidCall(c, |c.nibbles|) && Shaped(p, |c.nibbles|) && p.root.Some?
    requires |c.nibbles| > 0 ==> c.nibbles[0] in p.kids
  {
    if |c.nibbles| == 0 then
      [Item(0, true, version, p.root.value.hash, c.loc, 0, [])]
    else
      var i := c.nibbles[0];
      var kid := p.kids[i];
      var at: nat := (i as int) + 1;
      [if |c.nibbles| == 1 then Item(at, true, version, kid.hash, c.loc, 0, [])
       else Item(at, false, version, kid.hash, NO_LOCATION, c.nibbles[1], c.childHash),
       Item(0, false, version, p.root.value.hash, NO_LOCATION, i, kid.hash)]
  }

  /** SetVersion, SetHash and, by the node's own class, SetLocation or SetChild. */
  function SetNode(n: Node, it: Item): Node {
    match n
    case Leaf(_, key, loc, _) => Leaf(it.version, key, if it.isLeaf then it.loc else loc, it.hash)
    case Index(_, _, slots) =>
      Index(it.version, it.hash, if it.isLeaf then slots else slots[it.index := Slot(it.version, it.childHash)])
  }

  function FreshNode(it: Item): Node {
    if it.isLeaf then Leaf(0, [], NO_LOCATION, []) else Index(0, [], map[])
  }

  /** A child bit without a child node, which no reachable page has, counts as absent;
      so does a location past the sixteen children, which no logged item has. */
  function UpdateDeltaItem(p: Page, it: Item): Page {
    var root := if p.root.Some? then p.root.value
                else if it.location == 0 && it.isLeaf then Leaf(0, [], NO_LOCATION, [])
                else Index(0, [], map[]);
    if it.location == 0 then
      Page(it.version, Some(SetNode(root, it)), p.kids)
    else if root.Leaf? || it.location > 16 then
      Page(it.version, Some(root), p.kids)
    else
      var i: Nibble := it.location - 1;
      Page(it.version, Some(AddChild(p, root, i)), p.kids[i := SetNode(KidOf(p, i, FreshNode(it)), it)])
  }

  function Replay(p: Page, items: seq<Item>): Page
    decreases |items|
  {
    if items == [] then p else Replay(UpdateDeltaItem(p, items[0]), items[1..])
  }

  /** LSVPS::applyDelta: stops at the first item newer than version v. */
  function ApplyDelta(p: Page, items: seq<Item>, v: nat): Page
    decreases |items|
  {
    if items == [] || items[0].version > v then p
    else ApplyDelta(UpdateDeltaItem(p, items[0]), items[1..], v)
  }

  /* ---- What two copies of a page must share ---- */

  /** What a page file may not return: the root's own slots, or all hashes besides. */
  datatype Loss = Lossless | Slotless | Hashless

  /** Views forget the key_ of leaves, which replay does not restore, and what may be lost. */
  function ViewSlots(slots: map<Nibble, Slot>, loss: Loss): map<Nibble, Slot> {
    if loss.Hashless? then map i | i in slots :: Slot(slots[i].version, []) else slots
  }

  function ViewNode(n: Node, loss: Loss): Node {
    match n
    case Leaf(v, _, loc, h) => Leaf(v, [], loc, if loss.Hashless? then [] else h)
    case Index(v, h, slots) => Index(v, if loss.Hashless? then [] else h, ViewSlots(slots, loss))
  }

  function ViewRoot(n: Node, loss: Loss): Node {
    if n.Index? && !loss.Lossless? then
      Index(n.version, if loss.Hashless? then [] else n.hash, map i | i in n.slots :: NO_SLOT)
    else ViewNode(n, loss)
  }

  function View(p: Page, loss: Loss): Page {
    Page(p.version,
         if p.root.Some? then Some(ViewRoot(p.root.value, loss)) else None,
         map i | i in p.kids :: ViewNode(p.kids[i], loss))
  }

  function ViewItem(it: Item, loss: Loss): Item {
    if loss.Hashless? then it.(hash := [], childHash := []) else it
  }

  ghost predicate Same(p: Page, q: Page, loss: Loss) {
    View(p, loss) == View(q, loss)
  }

  ghost predicate SameItems(s: seq<Item>, t: seq<Item>, loss: Loss) {
    |s| == |t| && forall i :: 0 <= i < |s| ==> ViewItem(s[i], loss) == ViewItem(t[i], loss)
  }

  /* ---- Basic facts ---- */

  lemma UpdatePageShape(H: Hash, p: Page, pid: Path, version: nat, c: Call)
    requires ValidCall(c, |c.nibbles|) && Shaped(p, |c.nibbles|)
    ensures var q := UpdatePage(H, p, pid, version, c);
            Shaped(q, |c.nibbles|) && q.root.Some? && q.version == version &&
            (|c.nibbles| > 0 ==> c.nibbles[0] in q.kids)
  {
  }

  lemma ReplayOne(p: Page, a: Item)
    ensures Replay(p, [a]) == UpdateDeltaItem(p, a)
  {
    assert [a][1..] == [];
  }

  lemma ReplayTwo(p: Page, a: Item, b: Item)
    ensures Replay(p, [a, b]) == UpdateDeltaItem(UpdateDeltaItem(p, a), b)
  {
    assert [a, b][1..] == [b];
    ReplayOne(UpdateDeltaItem(p, a), b);
  }

  /** The first of the two items of a call rebuilds the child node. */
  lemma ReplayKid(H: Hash, p: Page, pid: Path, version: nat, c: Call)
    requires ValidCall(c, |c.nibbles|) && |c.nibbles| > 0 && Shaped(p, |c.nibbles|)
    ensures var q := UpdatePage(H, p, pid, version, c);
            var i := c.nibbles[0];
            Shaped(q, |c.nibbles|) && q.root.Some? && i in q.kids &&
            var p1 := UpdateDeltaItem(p, Logged(q, version, c)[0]);
            p1.root == Some(AddChild(p, RootOf(p), i)) && p1.kids.Keys == q.kids.Keys &&
            (forall j :: j in p.kids && j != i ==> p1.kids[j] == p.kids[j]) &&
            ViewNode(p1.kids[i], Lossless) == ViewNode(q.kids[i], Lossless)
  {
    UpdatePageShape(H, p, pid, version, c);
  }

  /** The second one updates the root. */
  lemma ReplayRoot(H: Hash, p: Page, pid: Path, version: nat, c: Call)
    requires ValidCall(c, |c.nibbles|) && |c.nibbles| > 0 && Shaped(p, |c.nibbles|)
    ensures var q := UpdatePage(H, p, pid, version, c);
            var i := c.nibbles[0];
            q.root.Some? && i in q.kids && Shaped(q, |c.nibbles|) &&
            forall p1: Page :: p1.root == Some(AddChild(p, RootOf(p), i)) ==>
              var r := UpdateDeltaItem(p1, Logged(q, version, c)[1]);
              r.root == q.root && r.kids == p1.kids && r.version == version
  {
    UpdatePageShape(H, p, pid, version, c);
  }

  /** Replaying what one UpdatePage call logs does what the call did. */
  lemma ReplayRefinesUpdate(H: Hash, p: Page, pid: Path, version: nat, c: Call)
    requires ValidCall(c, |c.nibbles|) && Shaped(p, |c.nibbles|)
    ensures var q := UpdatePage(H, p, pid, version, c);
            q.root.Some? && Shaped(q, |c.nibbles|) && (|c.nibbles| > 0 ==> c.nibbles[0] in q.kids) &&
            Same(Replay(p, Logged(q, version, c)), q, Lossless)
  {
    UpdatePageShape(H, p, pid, version, c);
    var q := UpdatePage(H, p, pid, version, c);
    var items := Logged(q, version, c);
    if |c.nibbles| == 0 {
      ReplayOne(p, items[0]);
    } else {
      ReplayTwo(p, items[0], items[1]);
      ReplayKid(H, p, pid, version, c);
      var r := Replay(p, items);
      ReplayRoot(H, p, pid, version, c);
      assert View(r, Lossless).kids == View(q, Lossless).kids;
    }
  }
}
