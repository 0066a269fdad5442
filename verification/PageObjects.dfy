/** The mutable pages: a delta page that logs, leaf and index nodes updated in place, and a
    base page of at most two levels of nodes reached by pointers. */
module PageObjects {
  import opened Types
  import opened Pages
  import opened Chains

  /* ---- DeltaPage ---- */

  function Logs(d: DeltaPage, it: Item): DeltaPage {
    d.(items := d.items + [it], count := d.count + 1, bcount := d.bcount + 1)
  }

  class MutableDeltaPage {
    var items: seq<Item>
    var last: Key
    var count: nat
    var bcount: nat

    function Contents(): DeltaPage
      reads this
    {
      DeltaPage(items, last, count, bcount)
    }

    constructor (d: DeltaPage)
      ensures Contents() == d
    {
      items, last, count, bcount := d.items, d.last, d.count, d.bcount;
    }

    method AddIndexNodeUpdate(location: nat, version: nat, hash: Bytes, index: Nibble, childHash: Bytes)
      modifies this
      ensures Contents() == Logs(old(Contents()), Item(location, false, version, hash, NO_LOCATION, index, childHash))
    {
      items := items + [Item(location, false, version, hash, NO_LOCATION, index, childHash)];
      count := count + 1;
      bcount := bcount + 1;
    }

    method AddLeafNodeUpdate(location: nat, version: nat, hash: Bytes, loc: Location)
      modifies this
      ensures Contents() == Logs(old(Contents()), Item(location, true, version, hash, loc, 0, []))
    {
      items := items + [Item(location, true, version, hash, loc, 0, [])];
      count := count + 1;
      bcount := bcount + 1;
    }

    method ClearDeltaPage()
      modifies this
      ensures Contents() == old(Contents()).(items := [], count := 0)
    {
      items := [];
      count := 0;
    }

    method SetLastPageKey(key: Key)
      modifies this
      ensures Contents() == old(Contents()).(last := key)
    {
      last := key;
    }

    method ClearBasePageUpdateCount()
      modifies this
      ensures Contents() == old(Contents()).(bcount := 0)
    {
      bcount := 0;
    }
  }

  /* ---- Nodes ---- */

  class LeafNode {
    var version: nat
    var key: Bytes
    var loc: Location
    var hash: Bytes

    function Value(): Node
      reads this
    {
      Leaf(version, key, loc, hash)
    }

    constructor (key: Bytes)
      ensures Value() == Leaf(0, key, NO_LOCATION, [])
    {
      version, this.key, loc, hash := 0, key, NO_LOCATION, [];
    }

    constructor Copy(n: Node)
      requires n.Leaf?
      ensures Value() == n
    {
      version, key, loc, hash := n.version, n.key, n.loc, n.hash;
    }

    method UpdateNode(H: Hash, version: nat, loc: Location, value: Bytes, location: nat, delta: MutableDeltaPage?)
      modifies this, delta
      ensures Value() == UpdateLeaf(H, old(Value()), version, loc, value)
      ensures delta != null ==>
              delta.Contents() == Logs(old(delta.Contents()), Item(location, true, version, hash, loc, 0, []))
    {
      this.version := version;
      this.loc := loc;
      if value == [] {
        hash := [];
      } else {
        hash := H(value);
      }
      if delta != null {
        delta.AddLeafNodeUpdate(location, version, hash, loc);
      }
    }

    /** SetVersion, SetHash and SetLocation; an index item sets no child of a leaf. */
    method SetDelta(it: Item)
      modifies this
      ensures Value() == SetNode(old(Value()), it)
    {
      version := it.version;
      if it.isLeaf {
        loc := it.loc;
      }
      hash := it.hash;
    }
  }

  function ResetSlot(n: Node, i: Nibble): Node {
    if n.Index? then n.(slots := n.slots[i := NO_SLOT]) else n
  }

  datatype NodeRef = LeafRef(leaf: LeafNode) | IndexRef(index: IndexNode)

  class IndexNode {
    var version: nat
    var hash: Bytes
    var bitmap: set<Nibble>
    /** The version and hash of each of the sixteen tuples, and their node pointers. */
    var children: seq<Slot>
    var pointers: map<Nibble, NodeRef>

    /** Unset bits have the slot (0, ""). */
    ghost predicate Valid()
      reads this
    {
      |children| == FANOUT && forall i: Nibble :: i !in bitmap ==> children[i] == NO_SLOT
    }

    function Value(): (n: Node)
      reads this
      requires |children| == FANOUT
      ensures n.Index?
    {
      Index(version, hash, map i: Nibble | i in bitmap :: children[i])
    }

    constructor (bitmap: set<Nibble>)
      ensures Valid() && Value() == Index(0, [], map i: Nibble | i in bitmap :: NO_SLOT)
      ensures pointers == map[] && this.bitmap == bitmap
    {
      version, hash, pointers := 0, [], map[];
      this.bitmap := bitmap;
      children := seq(FANOUT, i => NO_SLOT);
      new;
      assert forall i: Nibble :: children[i] == NO_SLOT;
    }

    constructor Copy(n: Node)
      requires n.Index?
      ensures Valid() && Value() == n && pointers == map[] && bitmap == n.slots.Keys
    {
      version, hash, pointers, bitmap := n.version, n.hash, map[], n.slots.Keys;
      children := seq(FANOUT, i requires 0 <= i < FANOUT => if i in n.slots then n.slots[i] else NO_SLOT);
      new;
      assert Value().slots == n.slots;
    }

    predicate HasChild(i: Nibble)
      reads this
    {
      i in bitmap
    }

    function GetChild(i: Nibble): NodeRef
      reads this
      requires i in pointers
    {
      pointers[i]
    }

    /** The concatenation of all sixteen slot hashes. */
    method ConcatenatedHash() returns (concatenated: Bytes)
      requires Valid()
      ensures concatenated == Join(SlotHashes(Value().slots))
    {
      concatenated := [];
      ghost var hashes := SlotHashes(Value().slots);
      assert hashes[0..] == hashes;
      for i := 0 to FANOUT
        invariant Join(hashes) == concatenated + Join(hashes[i..])
      {
        JoinNext(concatenated, hashes, i);
        concatenated := concatenated + children[i].hash;
      }
      assert hashes[FANOUT..] == [];
    }

    method UpdateNode(H: Hash, version: nat, index: Nibble, childHash: Bytes, location: nat, delta: MutableDeltaPage?)
      requires Valid()
      modifies this, delta
      ensures Valid() && pointers == old(pointers) && bitmap == old(bitmap) + {index}
      ensures Value() == UpdateIndex(H, old(Value()), version, index, childHash)
      ensures delta != null ==>
                delta.Contents() == Logs(old(delta.Contents()),
                    Item(location, false, version, hash, NO_LOCATION, index, childHash))
    {
      ghost var slots := Value().slots;
      this.version := version;
      bitmap := bitmap + {index};
      children := children[index := Slot(version, childHash)];
      assert Value().slots == slots[index := Slot(version, childHash)];
      var concatenated := ConcatenatedHash();
      hash := H(concatenated);
      if delta != null {
        delta.AddIndexNodeUpdate(location, version, hash, index, childHash);
      }
    }

    /** AddChild: the slot starts over. */
    method AddChild(index: Nibble, child: NodeRef)
      requires Valid()
      modifies this
      ensures Valid() && pointers == old(pointers)[index := child] && bitmap == old(bitmap) + {index}
      ensures Value() == ResetSlot(old(Value()), index)
    {
      ghost var slots := Value().slots;
      children := children[index := NO_SLOT];
      pointers := pointers[index := child];
      bitmap := bitmap + {index};
      assert Value().slots == slots[index := NO_SLOT];
    }

    /** SetVersion, SetHash and SetChild; a leaf item sets no location of an index node. */
    method SetDelta(it: Item)
      requires Valid()
      modifies this
      ensures Valid() && pointers == old(pointers)
      ensures bitmap == if it.isLeaf then old(bitmap) else old(bitmap) + {it.index}
      ensures Value() == SetNode(old(Value()), it)
    {
      ghost var slots := Value().slots;
      version := it.version;
      hash := it.hash;
      if !it.isLeaf {
        children := children[it.index := Slot(it.version, it.childHash)];
        bitmap := bitmap + {it.index};
        assert Value().slots == slots[it.index := Slot(it.version, it.childHash)];
      }
    }
  }
}
