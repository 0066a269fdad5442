/** The byte format of base pages, and what a checkpoint read back from a file is: the
    whole second level survives, the root's own slots are reset, and the children say
    what the slots were. */
module BaseCodec {
  import opened Types
  import opened Pages
  import opened Chains
  import opened Copies
  import opened PageSpecs
  import opened Fields
  import opened DeltaCodec

  /* ---- Nodes ---- */

  function PrintSlot(slot: Slot, tail: Bytes): (s: Bytes)
    ensures |s| == 40 + |tail|
  {
    PrintInt(slot.version, 8) + (Fixed(slot.hash) + tail)
  }

  /** LeafNode::SerializeTo; IndexNode::SerializeTo up to its children. */
  function PrintNode(n: Node, tail: Bytes): Bytes {
    match n
    case Leaf(version, key, loc, hash) =>
      PrintInt(1, 1) + (PrintInt(version, 8) + (PrintInt(|key|, 8) + (key + PrintLocation(loc, Fixed(hash) + tail))))
    case Index(version, hash, slots) =>
      PrintInt(0, 1) + (PrintInt(version, 8) + (Fixed(hash) + (PrintInt(Bits(slots.Keys, 0), 2) +
        PrintWhere(PrintSlot, slots, 0, tail))))
  }

  function ParseSlot(s: Bytes): Parsed<Slot> {
    var (version, s1) :- ParseInt(s, 8);
    var (hash, s2) :- Take(s1, HASH_SIZE);
    Ok(Slot(version, hash), s2)
  }

  function ParseLeaf(s: Bytes): Parsed<Node> {
    var (version, s1) :- ParseInt(s, 8);
    var (size, s2) :- ParseInt(s1, 8);
    var (key, s3) :- Take(s2, size);
    var (loc, s4) :- ParseLocation(s3);
    var (hash, s5) :- Take(s4, HASH_SIZE);
    Ok(Leaf(version, key, loc, hash), s5)
  }

  function ParseIndex(s: Bytes): Parsed<Node> {
    var (version, s1) :- ParseInt(s, 8);
    var (hash, s2) :- Take(s1, HASH_SIZE);
    var (bitmap, s3) :- ParseInt(s2, 2);
    var (slots, s4) :- ParseWhere(ParseSlot, s3, bitmap, 0);
    Ok(Index(version, hash, slots), s4)
  }

  function ParseNode(s: Bytes): Parsed<Node> {
    var (isLeaf, s1) :- ParseInt(s, 1);
    if isLeaf != 0 then ParseLeaf(s1) else ParseIndex(s1)
  }

  function SlotBack(slot: Slot): Slot { Slot(slot.version, Fixed(slot.hash)) }

  /** What reading a node back yields. */
  function NodeBack(n: Node): Node {
    match n
    case Leaf(version, key, loc, hash) => Leaf(version, key, loc, Fixed(hash))
    case Index(version, hash, slots) => Index(version, Fixed(hash), MapValues(SlotBack, slots, 0))
  }

  predicate NodeFits(n: Node) {
    n.version < Pow256(8) &&
    if n.Leaf? then |n.key| < Pow256(8) && LocationFits(n.loc)
    else forall i :: i in n.slots ==> n.slots[i].version < Pow256(8)
  }

  lemma ParseSlotInverts(slot: Slot, tail: Bytes)
    requires slot.version < Pow256(8)
    ensures ParseSlot(PrintSlot(slot, tail)) == Ok(SlotBack(slot), tail)
  {
    ParseIntInverts(slot.version, 8, Fixed(slot.hash) + tail);
    TakeInverts(Fixed(slot.hash), tail);
  }

  lemma SlotsInvert(slots: map<Nibble, Slot>, tail: Bytes)
    requires forall i :: i in slots ==> slots[i].version < Pow256(8)
    ensures ParseWhere(ParseSlot, PrintWhere(PrintSlot, slots, 0, tail), Bits(slots.Keys, 0), 0)
            == Ok(MapValues(SlotBack, slots, 0), tail)
  {
    forall i | i in slots ensures Inverts(PrintSlot, ParseSlot, SlotBack, slots[i]) {
      forall t ensures ParseSlot(PrintSlot(slots[i], t)) == Ok(SlotBack(slots[i]), t) { ParseSlotInverts(slots[i], t); }
    }
    WhereInverts(PrintSlot, ParseSlot, SlotBack, slots, 0, tail);
  }

  lemma ParseLeafInverts(n: Node, tail: Bytes)
    requires NodeFits(n) && n.Leaf?
    ensures ParseNode(PrintNode(n, tail)) == Ok(NodeBack(n), tail)
  {
    var s5 := Fixed(n.hash) + tail;
    var s4 := PrintLocation(n.loc, s5);
    var s3 := n.key + s4;
    var s2 := PrintInt(|n.key|, 8) + s3;
    var s1 := PrintInt(n.version, 8) + s2;
    Widths();
    ParseIntInverts(1, 1, s1);
    ParseIntInverts(n.version, 8, s2);
    ParseIntInverts(|n.key|, 8, s3);
    TakeInverts(n.key, s4);
    ParseLocationInverts(n.loc, s5);
    TakeInverts(Fixed(n.hash), tail);
  }

  lemma ParseIndexInverts(n: Node, tail: Bytes)
    requires NodeFits(n) && n.Index?
    ensures ParseNode(PrintNode(n, tail)) == Ok(NodeBack(n), tail)
  {
    var s4 := PrintWhere(PrintSlot, n.slots, 0, tail);
    var s3 := PrintInt(Bits(n.slots.Keys, 0), 2) + s4;
    var s2 := Fixed(n.hash) + s3;
    var s1 := PrintInt(n.version, 8) + s2;
    Widths();
    BitmapInverts(n.slots.Keys);
    ParseIntInverts(0, 1, s1);
    ParseIntInverts(n.version, 8, s2);
    TakeInverts(Fixed(n.hash), s3);
    ParseIntInverts(Bits(n.slots.Keys, 0), 2, s4);
    SlotsInvert(n.slots, tail);
  }

  lemma ParseNodeInverts(n: Node, tail: Bytes)
    requires NodeFits(n)
    ensures ParseNode(PrintNode(n, tail)) == Ok(NodeBack(n), tail)
  {
    if n.Leaf? { ParseLeafInverts(n, tail); } else { ParseIndexInverts(n, tail); }
  }

  /* ---- Pages ---- */

  function PrintRoot(p: Page, tail: Bytes): Bytes
    requires p.root.Some?
  {
    PrintNode(p.root.value, if p.root.value.Leaf? then tail else PrintWhere(PrintNode, p.kids, 0, tail))
  }

  /** BasePage::SerializeTo, None where it would leave the page buffer. The version printed
      is the root's, the trie id 0 and the type that of a base page. */
  function PrintPage(pid: Bytes, p: Page): Option<Bytes>
    requires p.root.Some?
  {
    var body := PrintKey(Key(p.root.value.version, false), pid, PrintRoot(p, []));
    if |body| > PAGE_SIZE then None else Some(body + Zeros(PAGE_SIZE - |body|))
  }

  /** The root after its children have been attached: AddChild resets every slot. */
  function ResetSlots(root: Node): Node {
    if root.Leaf? then root else root.(slots := map i | i in root.slots :: NO_SLOT)
  }

  /** The constructor from a buffer. */
  function ParsePage(s: Bytes): Parsed<(Bytes, Page)> {
    var (k, s1) :- ParseKey(s);
    var (root, s2) :- ParseNode(s1);
    if root.Leaf? then Ok((k.1, Page(k.0.version, Some(root), map[])), s2)
    else
      var (kids, s3) :- ParseWhere(ParseNode, s2, Bits(root.slots.Keys, 0), 0);
      Ok((k.1, Page(k.0.version, Some(ResetSlots(root)), kids)), s3)
  }

  /** What reading a page back yields. */
  function PageBack(p: Page): Page
    requires p.root.Some?
  {
    Page(p.root.value.version, Some(ResetSlots(NodeBack(p.root.value))), MapValues(NodeBack, p.kids, 0))
  }

  /** Integers fit their fields, and a root has a child node for every bit. */
  ghost predicate PageFits(pid: Bytes, p: Page) {
    |pid| < Pow256(8) && p.root.Some? && NodeFits(p.root.value) &&
    (if p.root.value.Leaf? then p.kids == map[] else p.kids.Keys == p.root.value.slots.Keys) &&
    forall i :: i in p.kids ==> NodeFits(p.kids[i])
  }

  lemma KidsInvert(kids: map<Nibble, Node>, tail: Bytes)
    requires forall i :: i in kids ==> NodeFits(kids[i])
    ensures ParseWhere(ParseNode, PrintWhere(PrintNode, kids, 0, tail), Bits(kids.Keys, 0), 0)
            == Ok(MapValues(NodeBack, kids, 0), tail)
  {
    forall i | i in kids ensures Inverts(PrintNode, ParseNode, NodeBack, kids[i]) {
      forall t ensures ParseNode(PrintNode(kids[i], t)) == Ok(NodeBack(kids[i]), t) { ParseNodeInverts(kids[i], t); }
    }
    WhereInverts(PrintNode, ParseNode, NodeBack, kids, 0, tail);
  }

  lemma PrintSlotsTail(slots: map<Nibble, Slot>, mid: Bytes, tail: Bytes)
    ensures PrintWhere(PrintSlot, slots, 0, mid + tail) == PrintWhere(PrintSlot, slots, 0, mid) + tail
  {
    forall slot, m, t ensures PrintSlot(slot, m + t) == PrintSlot(slot, m) + t {}
    PrintWhereTail(PrintSlot, slots, 0, mid + tail);
    PrintWhereTail(PrintSlot, slots, 0, mid);
  }

  lemma PrintNodeTail(n: Node, mid: Bytes, tail: Bytes)
    ensures PrintNode(n, mid + tail) == PrintNode(n, mid) + tail
  {
    if n.Leaf? {
      assert Fixed(n.hash) + (mid + tail) == Fixed(n.hash) + mid + tail;
      assert PrintLocation(n.loc, Fixed(n.hash) + mid + tail) == PrintLocation(n.loc, Fixed(n.hash) + mid) + tail;
    } else {
      PrintSlotsTail(n.slots, mid, tail);
    }
  }

  lemma PrintRootTail(p: Page, tail: Bytes)
    requires p.root.Some?
    ensures PrintRoot(p, tail) == PrintRoot(p, []) + tail
  {
    if p.root.value.Leaf? {
      assert [] + tail == tail;
      PrintNodeTail(p.root.value, [], tail);
    } else {
      forall n, m, t ensures PrintNode(n, m + t) == PrintNode(n, m) + t { PrintNodeTail(n, m, t); }
      PrintWhereTail(PrintNode, p.kids, 0, tail);
      PrintNodeTail(p.root.value, PrintWhere(PrintNode, p.kids, 0, []), tail);
    }
  }

  lemma ParseRootInverts(k: Key, pid: Bytes, p: Page, tail: Bytes)
    requires PageFits(pid, p) && k.version == p.root.value.version
    ensures ParsePage(PrintKey(k, pid, PrintRoot(p, tail))) == Ok((pid, PageBack(p)), tail)
  {
    ParseKeyInverts(k, pid, PrintRoot(p, tail));
    if p.root.value.Leaf? {
      ParseNodeInverts(p.root.value, tail);
      assert MapValues(NodeBack, p.kids, 0) == map[];
    } else {
      ParseNodeInverts(p.root.value, PrintWhere(PrintNode, p.kids, 0, tail));
      assert NodeBack(p.root.value).slots.Keys == p.kids.Keys;
      KidsInvert(p.kids, tail);
    }
  }

  /** Printing and reading back a base page restores its page id, version, root hash, bitmap
      and whole second level. */
  lemma PageRoundTrip(pid: Bytes, p: Page)
    requires PageFits(pid, p) && PrintPage(pid, p).Some?
    ensures var r := ParsePage(PrintPage(pid, p).value); r.Ok? && r.value == (pid, PageBack(p))
  {
    var k := Key(p.root.value.version, false);
    var zeros := Zeros(PAGE_SIZE - |PrintKey(k, pid, PrintRoot(p, []))|);
    PrintRootTail(p, zeros);
    PrintKeyTail(k, pid, PrintRoot(p, []), zeros);
    ParseRootInverts(k, pid, p, zeros);
  }

  /* ---- Getting the root slots back ---- */

  predicate FullNode(n: Node) {
    |n.hash| == HASH_SIZE && (n.Index? ==> forall i :: i in n.slots ==> |n.slots[i].hash| == HASH_SIZE)
  }

  /** All hashes have 32 bytes. */
  ghost predicate FullPage(p: Page) {
    p.root.Some? && FullNode(p.root.value) && forall i :: i in p.kids ==> FullNode(p.kids[i])
  }

  lemma NodeBackFull(n: Node)
    requires FullNode(n)
    ensures NodeBack(n) == n
  {
    if n.Index? { assert MapValues(SlotBack, n.slots, 0) == n.slots; }
  }

  lemma KidsBackFull(p: Page)
    requires FullPage(p)
    ensures MapValues(NodeBack, p.kids, 0) == p.kids
  {
    forall i | i in p.kids ensures NodeBack(p.kids[i]) == p.kids[i] { NodeBackFull(p.kids[i]); }
  }

  lemma PageBackFull(p: Page)
    requires FullPage(p) && p.version == p.root.value.version
    ensures PageBack(p) == Page(p.version, Some(ResetSlots(p.root.value)), p.kids)
  {
    NodeBackFull(p.root.value);
    KidsBackFull(p);
  }

  lemma RecoverSlots(H: Hash, p: Page, n: nat)
    requires Shaped(p, n) && Hashed(H, p) && p.root.Some? && p.root.value.Index?
    ensures KidSlots(p.kids) == p.root.value.slots
  {
    forall i | i in p.kids ensures Slot(p.kids[i].version, p.kids[i].hash) == p.root.value.slots[i] {
      assert HashedKid(H, p, i);
    }
  }

  lemma RecoverReset(H: Hash, p: Page, n: nat)
    requires Shaped(p, n) && Hashed(H, p) && p.root.Some?
    ensures Recover(Page(p.version, Some(ResetSlots(p.root.value)), p.kids)) == p
  {
    var root := p.root.value;
    assert p.root == Some(root);
    assert p == Page(p.version, p.root, p.kids);
    if root.Index? {
      RecoverSlots(H, p, n);
      assert root == Index(root.version, root.hash, root.slots);
    }
  }

  /** A page whose root slots are its children's versions and hashes, as every reachable
      page's are, is restored exactly by reading it back and copying the slots. */
  lemma RecoverRestores(H: Hash, p: Page, n: nat)
    requires Shaped(p, n) && FullPage(p) && Hashed(H, p) && p.version == p.root.value.version
    ensures Recover(PageBack(p)) == p
  {
    PageBackFull(p);
    RecoverReset(H, p, n);
  }

  lemma KidsBackView(kids: map<Nibble, Node>)
    ensures (map i | i in MapValues(NodeBack, kids, 0) :: ViewNode(MapValues(NodeBack, kids, 0)[i], Hashless))
            == map i | i in kids :: ViewNode(kids[i], Hashless)
  {
    forall i | i in kids ensures ViewNode(NodeBack(kids[i]), Hashless) == ViewNode(kids[i], Hashless) {}
  }

  lemma RootBackView(root: Node)
    ensures ViewRoot(ResetSlots(NodeBack(root)), Hashless) == ViewRoot(root, Hashless)
  {
    if root.Index? {
      var back := ResetSlots(NodeBack(root));
      assert (map i | i in back.slots :: NO_SLOT) == map i | i in root.slots :: NO_SLOT;
    }
  }

  /** A stored checkpoint that went through a file is a faithful copy up to hashes and the
      root's own slots. */
  lemma BaseCopy(p: Page)
    requires p.root.Some? && p.version == p.root.value.version
    ensures CopyOf(Base(p), Base(PageBack(p)), Hashless)
  {
    RootBackView(p.root.value);
    KidsBackView(p.kids);
  }

  /** With 32-byte hashes and slots copied back from the children it is a faithful copy in full. */
  lemma RecoveredCopy(H: Hash, p: Page, n: nat)
    requires Shaped(p, n) && FullPage(p) && Hashed(H, p) && p.version == p.root.value.version
    ensures CopyOf(Base(p), Base(Recover(PageBack(p))), Lossless)
  {
    RecoverRestores(H, p, n);
  }

  /* ---- Base pages always fit ---- */

  /** Leaf keys are at most the page id and the two decimal digits that UpdatePage appends. */
  ghost predicate ShortKeys(pid: Bytes, p: Page) {
    (p.root.Some? && p.root.value.Leaf? ==> |p.root.value.key| <= |pid| + 2) &&
    forall i :: i in p.kids && p.kids[i].Leaf? ==> |p.kids[i].key| <= |pid| + 2
  }

  lemma NodeSize(n: Node, tail: Bytes)
    ensures n.Leaf? ==> |PrintNode(n, tail)| == 73 + |n.key| + |tail|
    ensures n.Index? ==> |PrintNode(n, tail)| <= 683 + |tail|
  {
    if n.Index? { PrintWhereSize(PrintSlot, n.slots, 0, tail, 40); }
  }

  /** A full page of 16 by 16 slots, or of sixteen leaves, stays inside the page buffer. */
  lemma PageAlwaysFits(pid: Bytes, p: Page, n: nat)
    requires Shaped(p, n) && p.root.Some? && ShortKeys(pid, p) && |pid| <= 610
    ensures PrintPage(pid, p).Some? && |PrintPage(pid, p).value| == PAGE_SIZE
  {
    var root := p.root.value;
    if root.Leaf? {
      NodeSize(root, []);
    } else {
      var size: nat := if n == 1 then 75 + |pid| else 683;
      forall i, t | i in p.kids ensures |PrintNode(p.kids[i], t)| <= size + |t| { NodeSize(p.kids[i], t); }
      PrintWhereSize(PrintNode, p.kids, 0, [], size);
      NodeSize(root, PrintWhere(PrintNode, p.kids, 0, []));
    }
  }

  /** UpdatePage keeps leaf keys short. */
  lemma UpdateKeepsShort(H: Hash, p: Page, pid: Path, w: nat, c: Call)
    requires ValidCall(c, |c.nibbles|) && Shaped(p, |c.nibbles|) && ShortKeys(HexString(pid), p)
    ensures ShortKeys(HexString(pid), UpdatePage(H, p, pid, w, c))
  {
    if |c.nibbles| > 0 { assert |Decimal(c.nibbles[0])| <= 2; }
  }

  /** Replay keeps them short too: the leaves it creates have no key. */
  lemma ReplayKeepsShort(p: Page, pid: Bytes, it: Item)
    requires ShortKeys(pid, p)
    ensures ShortKeys(pid, UpdateDeltaItem(p, it))
  {
  }
}
