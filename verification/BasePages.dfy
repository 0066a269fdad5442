/** BasePage as an object: a root node and the nodes one level below, updated in place by
    UpdatePage and by UpdateDeltaItem. */
module BasePages {
  import opened Types
  import opened Pages
  import opened Chains
  import opened PageObjects

  function ObjectOf(n: NodeRef): object {
    match n
    case LeafRef(l) => l
    case IndexRef(x) => x
  }

  ghost predicate RefValid(n: NodeRef)
    reads ObjectOf(n)
  {
    n.IndexRef? ==> n.index.Valid()
  }

  function RefValue(n: NodeRef): (v: Node)
    reads ObjectOf(n)
    requires RefValid(n)
    ensures v.Leaf? <==> n.LeafRef?
  {
    match n
    case LeafRef(l) => l.Value()
    case IndexRef(x) => x.Value()
  }

  method CopyNode(n: Node) returns (x: NodeRef)
    ensures fresh(ObjectOf(x)) && RefValid(x) && RefValue(x) == n
    ensures x.IndexRef? ==> x.index.pointers == map[] && x.index.bitmap == n.slots.Keys
  {
    if n.Leaf? {
      var l := new LeafNode.Copy(n);
      x := LeafRef(l);
    } else {
      var y := new IndexNode.Copy(n);
      x := IndexRef(y);
    }
  }

  /** Which node to make where one is missing. */
  datatype NewNode = NewLeaf(key: Bytes) | NewIndex(bits: set<Nibble>)

  function NewValue(n: NewNode): Node {
    match n
    case NewLeaf(key) => Leaf(0, key, NO_LOCATION, [])
    case NewIndex(bits) => Index(0, [], map i: Nibble | i in bits :: NO_SLOT)
  }

  method Make(n: NewNode) returns (x: NodeRef)
    ensures fresh(ObjectOf(x)) && RefValid(x) && RefValue(x) == NewValue(n)
    ensures x.IndexRef? ==> x.index.pointers == map[] && x.index.bitmap == n.bits
    ensures x.LeafRef? <==> n.NewLeaf?
  {
    if n.NewLeaf? {
      var l := new LeafNode(n.key);
      x := LeafRef(l);
    } else {
      var y := new IndexNode(n.bits);
      x := IndexRef(y);
    }
  }

  /** The page with a child at i, made and attached if there was none. */
  function WithKid(p: Page, i: Nibble, n: NewNode): Page
    requires p.root.Some? && p.root.value.Index?
  {
    Page(p.version, Some(AddChild(p, p.root.value, i)), p.kids[i := KidOf(p, i, NewValue(n))])
  }

  function FirstKids(kids: map<Nibble, Node>, n: nat): map<Nibble, Node> {
    map i | i in kids && i < n :: kids[i]
  }

  lemma FirstKidsNext(kids: map<Nibble, Node>, n: nat)
    requires n < FANOUT
    ensures n !in FirstKids(kids, n)
    ensures FirstKids(kids, n + 1) == if n in kids then FirstKids(kids, n)[n := kids[n]] else FirstKids(kids, n)
  {
  }

  /** Several items at once. */
  function LogAll(d: DeltaPage, items: seq<Item>): DeltaPage {
    d.(items := d.items + items, count := d.count + |items|, bcount := d.bcount + |items|)
  }

  /** The root that replay starts from. */
  function RootFor(p: Page, it: Item): Node {
    if p.root.Some? then p.root.value
    else if it.location == 0 && it.isLeaf then Leaf(0, [], NO_LOCATION, [])
    else Index(0, [], map[])
  }

  /** The page with the child at i, made if need be, set from an item. */
  function KidReplayed(p: Page, i: Nibble, it: Item): Page
    requires p.root.Some? && p.root.value.Index?
  {
    Page(p.version, Some(AddChild(p, p.root.value, i)), p.kids[i := SetNode(KidOf(p, i, FreshNode(it)), it)])
  }

  /** What an item does to a page with a root, but for the version in the page key. */
  function Replayed(p: Page, it: Item): Page
    requires p.root.Some? && it.location <= FANOUT
  {
    if it.location == 0 then p.(root := Some(SetNode(p.root.value, it)))
    else if p.root.value.Index? then KidReplayed(p, it.location - 1, it)
    else p
  }

  lemma ReplayedIs(p: Page, it: Item)
    requires it.location <= FANOUT
    ensures UpdateDeltaItem(p, it) == Replayed(p.(root := Some(RootFor(p, it))), it).(version := it.version)
  {
  }

  lemma KidReplayedIs(p: Page, i: Nibble, it: Item, n: NewNode)
    requires p.root.Some? && p.root.value.Index? && n == if it.isLeaf then NewLeaf([]) else NewIndex({})
    ensures var p1 := WithKid(p, i, n);
            i in p1.kids && p1.(kids := p1.kids[i := SetNode(p1.kids[i], it)]) == KidReplayed(p, i, it)
  {
    assert NewValue(NewIndex({})) == Index(0, [], map[]);
  }

  /** The page that EnsurePath leaves. */
  function Prepared(p: Page, i: Nibble, n: NewNode): Page
    requires p.root.Some? ==> p.root.value.Index?
  {
    WithKid(p.(root := Some(RootOf(p))), i, n)
  }

  /** q is p updated, but for the version in the page key. */
  ghost predicate Updated(H: Hash, p: Page, q: Page, pid: Path, w: nat, c: Call) {
    ValidCall(c, |c.nibbles|) && Shaped(p, |c.nibbles|) && q == UpdatePage(H, p, pid, w, c).(version := p.version)
  }

  /** The delta page has taken in what the call that led to q logs. */
  ghost predicate LoggedBy(d: DeltaPage, d': DeltaPage, q: Page, w: nat, c: Call) {
    ValidCall(c, |c.nibbles|) && Shaped(q, |c.nibbles|) && q.root.Some? &&
        (|c.nibbles| > 0 ==> c.nibbles[0] in q.kids) &&
    d' == LogAll(d, Logged(q, w, c))
  }

  function RootAfter(H: Hash, p: Page, i: Nibble, w: nat): Page
    requires p.root.Some? && p.root.value.Index? && i in p.kids
  {
    p.(root := Some(UpdateIndex(H, p.root.value, w, i, p.kids[i].hash)))
  }

  /** The leaf at i and then the root's slot for it. */
  function LeafPath(H: Hash, p: Page, i: Nibble, w: nat, loc: Location, value: Bytes): Page
    requires p.root.Some? && p.root.value.Index? && i in p.kids && p.kids[i].Leaf?
  {
    RootAfter(H, p.(kids := p.kids[i := UpdateLeaf(H, p.kids[i], w, loc, value)]), i, w)
  }

  /** The index node at i and then the root's slot for it. */
  function IndexPath(H: Hash, p: Page, i: Nibble, w: nat, j: Nibble, childHash: Bytes): Page
    requires p.root.Some? && p.root.value.Index? && i in p.kids && p.kids[i].Index?
  {
    RootAfter(H, p.(kids := p.kids[i := UpdateIndex(H, p.kids[i], w, j, childHash)]), i, w)
  }

  /** The items of a child at i and of the root above it. */
  ghost predicate LoggedPath(d: DeltaPage, d': DeltaPage, q: Page, i: Nibble, kid: Item, w: nat) {
    q.root.Some? && i in q.kids && kid.hash == q.kids[i].hash &&
    d' == Logs(Logs(d, kid), Item(0, false, w, q.root.value.hash, NO_LOCATION, i, q.kids[i].hash))
  }

  /** Updating the child at i and then its slot is the update of the page. */
  lemma OverLeaves(H: Hash, p: Page, p1: Page, pid: Path, w: nat, c: Call)
    requires |c.nibbles| == 1 && Shaped(p, 1) &&
             p1 == Prepared(p, c.nibbles[0], NewLeaf(HexString(pid) + Decimal(c.nibbles[0])))
    ensures p1.kids[c.nibbles[0]].Leaf?
    ensures Updated(H, p, LeafPath(H, p1, c.nibbles[0], w, c.loc, c.value), pid, w, c)
    ensures Shaped(LeafPath(H, p1, c.nibbles[0], w, c.loc, c.value), 1)
  {
    UpdatePageShape(H, p, pid, w, c);
  }

  lemma OverIndexes(H: Hash, p: Page, p1: Page, pid: Path, w: nat, c: Call)
    requires |c.nibbles| == 2 && Shaped(p, 2) && p1 == Prepared(p, c.nibbles[0], NewIndex({c.nibbles[1]}))
    ensures p1.kids[c.nibbles[0]].Index?
    ensures Updated(H, p, IndexPath(H, p1, c.nibbles[0], w, c.nibbles[1], c.childHash), pid, w, c)
    ensures Shaped(IndexPath(H, p1, c.nibbles[0], w, c.nibbles[1], c.childHash), 2)
  {
    var j := c.nibbles[1];
    assert NewValue(NewIndex({j})) == Index(0, [], map[j := NO_SLOT]);
    UpdatePageShape(H, p, pid, w, c);
  }

  lemma LoggedLeaf(d: DeltaPage, d': DeltaPage, q: Page, w: nat, c: Call)
    requires |c.nibbles| == 1 && Shaped(q, 1)
    requires LoggedPath(d, d', q, c.nibbles[0],
             Item((c.nibbles[0] as int) + 1, true, w, LeafHashAt(q, c.nibbles[0]), c.loc, 0, []), w)
    ensures LoggedBy(d, d', q, w, c)
  {
  }

  lemma LoggedIndex(d: DeltaPage, d': DeltaPage, q: Page, w: nat, c: Call)
    requires |c.nibbles| == 2 && Shaped(q, 2)
    requires LoggedPath(d, d', q, c.nibbles[0],
                        Item((c.nibbles[0] as int) + 1, false, w, LeafHashAt(q, c.nibbles[0]), NO_LOCATION,
                            c.nibbles[1], c.childHash), w)
    ensures LoggedBy(d, d', q, w, c)
  {
  }

  function LeafHashAt(q: Page, i: Nibble): Bytes {
    if i in q.kids then q.kids[i].hash else []
  }

  class BasePage {
    /** The version in the page key. */
    var version: nat
    var root: Option<NodeRef>
    ghost var Repr: set<object>

    function Pointers(): map<Nibble, NodeRef>
      reads this, Repr
      requires root.Some? ==> ObjectOf(root.value) in Repr
    {
      if root.Some? && root.value.IndexRef? then root.value.index.pointers else map[]
    }

    ghost predicate KidOK(i: Nibble, n: NodeRef)
      reads this, Repr
    {
      ObjectOf(n) in Repr && ObjectOf(n) != this && root.Some? && ObjectOf(n) != ObjectOf(root.value) && RefValid(n)
    }

    /** Nodes are distinct objects, and the root has a bit for every child node. */
    ghost predicate Valid()
      reads this, Repr
    {
      && this in Repr
      && (root.Some? ==> ObjectOf(root.value) in Repr && ObjectOf(root.value) != this && RefValid(root.value))
      && (root.Some? && root.value.IndexRef? ==> root.value.index.pointers.Keys <= root.value.index.bitmap)
      && (forall i :: i in Pointers() ==> KidOK(i, Pointers()[i]))
      && (forall i, j :: i in Pointers() && j in Pointers() && i != j ==>
          ObjectOf(Pointers()[i]) != ObjectOf(Pointers()[j]))
    }

    function Kids(): map<Nibble, Node>
      reads this, Repr
      requires Valid()
    {
      map i | i in Pointers() :: assert KidOK(i, Pointers()[i]); RefValue(Pointers()[i])
    }

    lemma KidsAre(ps: map<Nibble, NodeRef>, kids: map<Nibble, Node>)
      requires Valid() && Pointers() == ps && ps.Keys == kids.Keys
      requires forall j :: j in ps ==> RefValid(ps[j]) && RefValue(ps[j]) == kids[j]
      ensures Kids() == kids
    {
    }

    function Value(): Page
      reads this, Repr
      requires Valid()
    {
      Page(version, if root.Some? then Some(RefValue(root.value)) else None, Kids())
    }

    /** A page without a root. */
    constructor ()
      ensures Valid() && Value() == EMPTY_PAGE && fresh(Repr)
    {
      version, root := 0, None;
      Repr := {this};
      new;
      assert Kids() == map[];
    }

    /** The copy constructor: new node objects for every node of the page. */
    method CopyFrom(p: Page)
      requires Valid() && root.None? && (p.root.None? || p.root.value.Leaf? ==> p.kids == map[])
      requires p.root.Some? && p.root.value.Index? ==> p.kids.Keys <= p.root.value.slots.Keys
      modifies this, Repr
      ensures Valid() && fresh(Repr - old(Repr)) && Value() == p
    {
      version := p.version;
      if p.root.None? {
        assert Kids() == map[];
        return;
      }
      var x := CopyNode(p.root.value);
      PlaceRoot(x);
      if p.root.value.Leaf? {
        assert Kids() == map[];
        return;
      }
      CopyKids(p.kids);
    }

    method CopyKids(kids: map<Nibble, Node>)
      requires Valid() && root.Some? && root.value.IndexRef? && Kids() == map[] && kids.Keys <= root.value.index.bitmap
      modifies this`Repr, root.value.index`pointers
      ensures Valid() && fresh(Repr - old(Repr)) && RefValue(root.value) == old(RefValue(root.value)) && Kids() == kids
    {
      assert FirstKids(kids, 0) == map[];
      for n := 0 to FANOUT
        invariant Valid() && fresh(Repr - old(Repr)) && RefValue(root.value) == old(RefValue(root.value))
        invariant Kids() == FirstKids(kids, n)
      {
        FirstKidsNext(kids, n);
        if n in kids {
          CopyKid(n, kids[n]);
        }
      }
      assert FirstKids(kids, FANOUT) == kids;
    }

    method CopyKid(i: Nibble, n: Node)
      requires Valid() && root.Some? && root.value.IndexRef? && i !in Kids() && i in root.value.index.bitmap
      modifies this`Repr, root.value.index`pointers
      ensures Valid() && fresh(Repr - old(Repr))
      ensures RefValue(root.value) == old(RefValue(root.value)) && Kids() == old(Kids())[i := n]
    {
      var x := CopyNode(n);
      PlaceKid(i, x);
    }

    method PlaceRoot(n: NodeRef)
      requires Valid() && root.None? && RefValid(n) && ObjectOf(n) !in Repr
      requires n.IndexRef? ==> n.index.pointers == map[]
      modifies this
      ensures Valid() && Repr == old(Repr) + {ObjectOf(n)} && root == Some(n) && version == old(version)
      ensures RefValue(n) == old(RefValue(n)) && Kids() == map[]
    {
      root := Some(n);
      Repr := Repr + {ObjectOf(n)};
    }

    /** A child node under a bit that is set already. */
    method PlaceKid(i: Nibble, n: NodeRef)
      requires Valid() && root.Some? && root.value.IndexRef? && i !in Pointers() && i in root.value.index.bitmap
      requires RefValid(n) && ObjectOf(n) !in Repr
      modifies this`Repr, root.value.index`pointers
      ensures Valid() && Repr == old(Repr) + {ObjectOf(n)}
      ensures RefValue(root.value) == old(RefValue(root.value)) && Kids() == old(Kids())[i := RefValue(n)]
    {
      var r := root.value.index;
      ghost var kids, ps := Kids(), Pointers();
      forall j | j in ps ensures ObjectOf(ps[j]) in Repr && ObjectOf(ps[j]) != r && ObjectOf(ps[j]) != this &&
          RefValid(ps[j]) {
        assert KidOK(j, ps[j]);
      }
      r.pointers := r.pointers[i := n];
      Repr := Repr + {ObjectOf(n)};
      forall j | j in ps ensures RefValid(ps[j]) && RefValue(ps[j]) == kids[j] && KidOK(j, ps[j]) {
      }
      KidsAre(ps[i := n], kids[i := RefValue(n)]);
    }

    method SetRoot(n: NodeRef)
      requires Valid() && root.None? && RefValid(n) && ObjectOf(n) !in Repr
      requires n.IndexRef? ==> n.index.pointers == map[] && n.index.bitmap == {}
      modifies this
      ensures Valid() && Repr == old(Repr) + {ObjectOf(n)} && root == Some(n)
      ensures Value() == old(Value()).(root := Some(RefValue(n)))
    {
      assert Kids() == map[];
      root := Some(n);
      Repr := Repr + {ObjectOf(n)};
      assert Kids() == map[];
    }

    /** A new child node in a slot that had none. */
    method AttachKid(i: Nibble, n: NodeRef)
      requires Valid() && root.Some? && root.value.IndexRef? && i !in Pointers() && RefValid(n) && ObjectOf(n) !in Repr
      modifies this, root.value.index
      ensures Valid() && Repr == old(Repr) + {ObjectOf(n)} && root == old(root)
      ensures Pointers() == old(Pointers())[i := n]
      ensures RefValue(root.value) == AddChild(old(Value()), old(RefValue(root.value)), i)
      ensures Value() == Page(old(version), Some(RefValue(root.value)), old(Value()).kids[i := RefValue(n)])
    {
      var r := root.value.index;
      ghost var kids := Kids();
      ghost var ps := Pointers();
      forall j | j in ps ensures ObjectOf(ps[j]) in Repr && ObjectOf(ps[j]) != r && ObjectOf(ps[j]) != this &&
          RefValid(ps[j]) {
        assert KidOK(j, ps[j]);
      }
      r.AddChild(i, n);
      Repr := Repr + {ObjectOf(n)};
      assert Pointers() == ps[i := n];
      forall j | j in ps ensures RefValid(ps[j]) && RefValue(ps[j]) == kids[j] && KidOK(j, ps[j]) {
      }
      KidsAre(ps[i := n], kids[i := RefValue(n)]);
    }

    /** Nothing of the page has changed since. */
    twostate lemma Untouched()
      requires old(Valid()) && unchanged(this) && forall o :: o in Repr ==> unchanged(o)
      ensures Valid() && Value() == old(Value())
    {
    }

    /** Only the child node at i has changed since. */
    twostate lemma KidChanged(i: Nibble)
      requires old(Valid()) && unchanged(this) && i in old(Pointers())
      requires forall o :: o in Repr && o != ObjectOf(old(Pointers())[i]) ==> unchanged(o)
      requires RefValid(old(Pointers())[i])
      ensures Valid() && Pointers() == old(Pointers())
      ensures Value() == old(Value()).(kids := old(Value()).kids[i := RefValue(Pointers()[i])])
    {
      ghost var ps := old(Pointers());
      assert old(KidOK(i, ps[i]));
      assert Pointers() == ps;
      forall j | j in ps ensures KidOK(j, ps[j]) && (j != i ==> RefValue(ps[j]) == old(Kids())[j]) {
        assert old(KidOK(j, ps[j]));
        if j != i { assert ObjectOf(ps[j]) != ObjectOf(ps[i]); }
      }
      KidsAre(ps, old(Kids())[i := RefValue(ps[i])]);
    }

    /** Only the root node has changed since, and not its pointers. */
    twostate lemma RootChanged()
      requires old(Valid()) && unchanged(this) && root.Some?
      requires forall o :: o in Repr && o != ObjectOf(root.value) ==> unchanged(o)
      requires RefValid(root.value)
      requires root.value.IndexRef? ==>
                 unchanged(root.value.index`pointers) && old(root.value.index.bitmap) <= root.value.index.bitmap
      ensures Valid() && Pointers() == old(Pointers())
      ensures Value() == old(Value()).(root := Some(RefValue(root.value)))
    {
      ghost var ps := old(Pointers());
      assert Pointers() == ps;
      forall j | j in ps ensures KidOK(j, ps[j]) && RefValue(ps[j]) == old(Kids())[j] {
        assert old(KidOK(j, ps[j]));
      }
      KidsAre(ps, old(Kids()));
    }

    /* ---- UpdatePage ---- */

    /** A page whose key leaves no nibbles holds one leaf. */
    method UpdateLeafRoot(H: Hash, pid: Path, w: nat, loc: Location, value: Bytes, delta: MutableDeltaPage?)
      requires Valid() && Shaped(Value(), 0) && delta !in Repr
      modifies this, Repr, delta
      ensures Valid() && fresh(Repr - old(Repr)) && version == old(version)
      ensures var leaf := if old(Value()).root.Some? then old(Value()).root.value
              else Leaf(0, HexString(pid), NO_LOCATION, []);
              Value() == old(Value()).(root := Some(UpdateLeaf(H, leaf, w, loc, value)))
      ensures delta != null ==>
                delta.Contents() == Logs(old(delta.Contents()), Item(0, true, w, Value().root.value.hash, loc, 0, []))
    {
      if root.None? {
        var l := Make(NewLeaf(HexString(pid)));
        SetRoot(l);
      }
      label L:
      root.value.leaf.UpdateNode(H, w, loc, value, 0, delta);
      RootChanged@L();
    }

    /** The root index node, made if the page has none. */
    method EnsureIndexRoot()
      requires Valid() && (root.Some? ==> root.value.IndexRef?)
      modifies this
      ensures Valid() && fresh(Repr - old(Repr)) && old(Repr) <= Repr && root.Some? && root.value.IndexRef?
      ensures Value() == old(Value()).(root := Some(RootOf(old(Value()))))
    {
      if root.None? {
        var r := Make(NewIndex({}));
        assert NewValue(NewIndex({})) == Index(0, [], map[]);
        SetRoot(r);
      }
    }

    /** The child at i, made if the root has none. A bit without a node would be a null
        dereference. */
    method EnsureKid(i: Nibble, n: NewNode)
      requires Valid() && root.Some? && root.value.IndexRef?
      requires i in Value().root.value.slots ==> i in Value().kids
      modifies this, root.value.index
      ensures Valid() && fresh(Repr - old(Repr)) && old(Repr) <= Repr && root == old(root) && i in Pointers()
      ensures Value() == WithKid(old(Value()), i, n)
    {
      if root.value.index.HasChild(i) {
      } else {
        var x := Make(n);
        AttachKid(i, x);
      }
    }

    method UpdateLeafKid(H: Hash, i: Nibble, w: nat, loc: Location, value: Bytes, delta: MutableDeltaPage?)
      requires Valid() && root.Some? && root.value.IndexRef? && i in Pointers() && Pointers()[i].LeafRef? &&
               delta !in Repr
      modifies Pointers()[i].leaf, delta
      ensures Valid() && Pointers() == old(Pointers())
      ensures Value() == old(Value()).(kids := old(Value()).kids[i := UpdateLeaf(H, old(Value()).kids[i], w, loc,
              value)])
      ensures delta != null ==>
                delta.Contents() == Logs(old(delta.Contents()),
                    Item((i as int) + 1, true, w, Value().kids[i].hash, loc, 0, []))
    {
      assert KidOK(i, Pointers()[i]);
      root.value.index.GetChild(i).leaf.UpdateNode(H, w, loc, value, (i as int) + 1, delta);
      KidChanged(i);
    }

    method UpdateIndexKid(H: Hash, i: Nibble, w: nat, j: Nibble, childHash: Bytes, delta: MutableDeltaPage?)
      requires Valid() && root.Some? && root.value.IndexRef? && i in Pointers() && Pointers()[i].IndexRef? &&
               delta !in Repr
      modifies Pointers()[i].index, delta
      ensures Valid() && Pointers() == old(Pointers())
      ensures Value() == old(Value()).(kids := old(Value()).kids[i := UpdateIndex(H, old(Value()).kids[i], w, j,
              childHash)])
      ensures delta != null ==>
                delta.Contents() == Logs(old(delta.Contents()),
                    Item((i as int) + 1, false, w, Value().kids[i].hash, NO_LOCATION, j, childHash))
    {
      assert KidOK(i, Pointers()[i]);
      root.value.index.GetChild(i).index.UpdateNode(H, w, j, childHash, (i as int) + 1, delta);
      KidChanged(i);
    }

    /** The root takes over the new hash of its child at i. */
    method UpdateRootSlot(H: Hash, i: Nibble, w: nat, delta: MutableDeltaPage?)
      requires Valid() && root.Some? && root.value.IndexRef? && i in Pointers() && delta !in Repr
      modifies root.value.index, delta
      ensures Valid()
      ensures Value() == old(Value()).(root := Some(UpdateIndex(H, old(Value()).root.value, w, i,
              old(Value()).kids[i].hash)))
      ensures delta != null ==>
                delta.Contents() == Logs(old(delta.Contents()),
                                         Item(0, false, w, Value().root.value.hash, NO_LOCATION, i,
                                             old(Value()).kids[i].hash))
    {
      assert KidOK(i, Pointers()[i]);
      var childHash := match root.value.index.GetChild(i) case LeafRef(l) => l.hash case IndexRef(x) => x.hash;
      root.value.index.UpdateNode(H, w, i, childHash, 0, delta);
      RootChanged();
    }

    /** A root with a child at i, whatever had to be made for it. */
    method EnsurePath(i: Nibble, n: NewNode)
      requires Valid() && (root.Some? ==> root.value.IndexRef? && (i in Value().root.value.slots ==> i in Value().kids))
      modifies this, Repr
      ensures Valid() && fresh(Repr - old(Repr)) && old(Repr) <= Repr && root.Some? && root.value.IndexRef? &&
              i in Pointers()
      ensures Value() == Prepared(old(Value()), i, n)
    {
      EnsureIndexRoot();
      EnsureKid(i, n);
    }

    method UpdateLeafPath(H: Hash, i: Nibble, w: nat, loc: Location, value: Bytes, delta: MutableDeltaPage?)
      requires Valid() && root.Some? && root.value.IndexRef? && i in Pointers() && Value().kids[i].Leaf? &&
               delta !in Repr
      modifies Repr, delta
      ensures Valid() && Repr == old(Repr)
      ensures Value() == LeafPath(H, old(Value()), i, w, loc, value)
      ensures delta != null ==>
                LoggedPath(old(delta.Contents()), delta.Contents(), Value(), i,
                           Item((i as int) + 1, true, w, LeafHashAt(Value(), i), loc, 0, []), w)
    {
      assert KidOK(i, Pointers()[i]);
      UpdateLeafKid(H, i, w, loc, value, delta);
      UpdateRootSlot(H, i, w, delta);
    }

    method UpdateIndexPath(H: Hash, i: Nibble, w: nat, j: Nibble, childHash: Bytes, delta: MutableDeltaPage?)
      requires Valid() && root.Some? && root.value.IndexRef? && i in Pointers() && Value().kids[i].Index? &&
               delta !in Repr
      modifies Repr, delta
      ensures Valid() && Repr == old(Repr)
      ensures Value() == IndexPath(H, old(Value()), i, w, j, childHash)
      ensures delta != null ==>
                LoggedPath(old(delta.Contents()), delta.Contents(), Value(), i,
                           Item((i as int) + 1, false, w, LeafHashAt(Value(), i), NO_LOCATION, j, childHash), w)
    {
      assert KidOK(i, Pointers()[i]);
      UpdateIndexKid(H, i, w, j, childHash, delta);
      UpdateRootSlot(H, i, w, delta);
    }

    /** A page with one nibble left: an index node over leaves. */
    method UpdateOverLeaves(H: Hash, pid: Path, w: nat, c: Call, delta: MutableDeltaPage?)
      requires Valid() && |c.nibbles| == 1 && Shaped(Value(), 1) && delta !in Repr
      modifies this, Repr, delta
      ensures Valid() && fresh(Repr - old(Repr))
      ensures Updated(H, old(Value()), Value(), pid, w, c)
      ensures delta != null ==> LoggedBy(old(delta.Contents()), delta.Contents(), Value(), w, c)
    {
      ghost var p := Value();
      var i := c.nibbles[0];
      EnsurePath(i, NewLeaf(HexString(pid) + Decimal(i)));
      OverLeaves(H, p, Value(), pid, w, c);
      UpdateLeafPath(H, i, w, c.loc, c.value, delta);
      if delta != null {
        LoggedLeaf(old(delta.Contents()), delta.Contents(), Value(), w, c);
      }
    }

    /** A page with two nibbles or more left: an index node over index nodes. */
    method UpdateOverIndexes(H: Hash, pid: Path, w: nat, c: Call, delta: MutableDeltaPage?)
      requires Valid() && |c.nibbles| == 2 && Shaped(Value(), 2) && delta !in Repr
      modifies this, Repr, delta
      ensures Valid() && fresh(Repr - old(Repr))
      ensures Updated(H, old(Value()), Value(), pid, w, c)
      ensures delta != null ==> LoggedBy(old(delta.Contents()), delta.Contents(), Value(), w, c)
    {
      ghost var p := Value();
      var i, j := c.nibbles[0], c.nibbles[1];
      EnsurePath(i, NewIndex({j}));
      OverIndexes(H, p, Value(), pid, w, c);
      UpdateIndexPath(H, i, w, j, c.childHash, delta);
      if delta != null {
        LoggedIndex(old(delta.Contents()), delta.Contents(), Value(), w, c);
      }
    }

    /** BasePage::UpdatePage up to the point where the delta page may be frozen. */
    method UpdatePage(H: Hash, pid: Path, w: nat, c: Call, delta: MutableDeltaPage?)
      requires Valid() && ValidCall(c, |c.nibbles|) && Shaped(Value(), |c.nibbles|) && delta !in Repr
      modifies this, Repr, delta
      ensures Valid() && fresh(Repr - old(Repr))
      ensures Value() == Pages.UpdatePage(H, old(Value()), pid, w, c)
      ensures delta != null ==> LoggedBy(old(delta.Contents()), delta.Contents(), Value(), w, c)
    {
      UpdatePageShape(H, Value(), pid, w, c);
      if |c.nibbles| == 0 {
        UpdateLeafRoot(H, pid, w, c.loc, c.value, delta);
      } else if |c.nibbles| == 1 {
        UpdateOverLeaves(H, pid, w, c, delta);
      } else {
        UpdateOverIndexes(H, pid, w, c, delta);
      }
      SetVersion(w);
    }

    /** SetPageKey. */
    method SetVersion(w: nat)
      requires Valid()
      modifies this`version
      ensures Valid() && Value() == old(Value()).(version := w)
    {
      ghost var ps, kids := Pointers(), Kids();
      version := w;
      forall j | j in ps ensures KidOK(j, ps[j]) && RefValue(ps[j]) == kids[j] {
        assert old(KidOK(j, ps[j]));
      }
      KidsAre(ps, kids);
    }

    /* ---- UpdateDeltaItem ---- */

    /** The root that an item needs, made if the page has none. */
    method EnsureRootFor(it: Item)
      requires Valid()
      modifies this
      ensures Valid() && fresh(Repr - old(Repr)) && old(Repr) <= Repr && root.Some?
      ensures Value() == old(Value()).(root := Some(RootFor(old(Value()), it)))
    {
      if root.None? {
        var x := Make(if it.location == 0 && it.isLeaf then NewLeaf([]) else NewIndex({}));
        assert NewValue(NewIndex({})) == Index(0, [], map[]);
        SetRoot(x);
      }
    }

    method SetRootDelta(it: Item)
      requires Valid() && root.Some?
      modifies ObjectOf(root.value)
      ensures Valid()
      ensures Value() == old(Value()).(root := Some(SetNode(old(Value()).root.value, it)))
    {
      match root.value {
        case LeafRef(l) => l.SetDelta(it);
        case IndexRef(x) => x.SetDelta(it);
      }
      RootChanged();
    }

    method SetKidDelta(i: Nibble, it: Item)
      requires Valid() && root.Some? && root.value.IndexRef? && i in Pointers()
      modifies ObjectOf(Pointers()[i])
      ensures Valid() && Pointers() == old(Pointers())
      ensures Value() == old(Value()).(kids := old(Value()).kids[i := SetNode(old(Value()).kids[i], it)])
    {
      assert KidOK(i, Pointers()[i]);
      match root.value.index.GetChild(i) {
        case LeafRef(l) => l.SetDelta(it);
        case IndexRef(x) => x.SetDelta(it);
      }
      KidChanged(i);
    }

    method ReplayKidItem(i: Nibble, it: Item)
      requires Valid() && root.Some? && root.value.IndexRef?
      requires i in Value().root.value.slots ==> i in Value().kids
      modifies this, Repr
      ensures Valid() && fresh(Repr - old(Repr))
      ensures Value() == KidReplayed(old(Value()), i, it)
    {
      var n := if it.isLeaf then NewLeaf([]) else NewIndex({});
      KidReplayedIs(Value(), i, it, n);
      EnsureKid(i, n);
      assert KidOK(i, Pointers()[i]);
      SetKidDelta(i, it);
    }

    /** BasePage::UpdateDeltaItem. Past the sixteen children AddChild throws, and a child bit
        without a node would be dereferenced. */
    method UpdateDeltaItem(it: Item)
      requires Valid() && it.location <= FANOUT
      requires Value().root.Some? && Value().root.value.Index? && it.location > 0 &&
               it.location - 1 in Value().root.value.slots ==>
                 it.location - 1 in Value().kids
      modifies this, Repr
      ensures Valid() && fresh(Repr - old(Repr))
      ensures Value() == Pages.UpdateDeltaItem(old(Value()), it)
    {
      ReplayedIs(Value(), it);
      EnsureRootFor(it);
      if it.location == 0 {
        SetRootDelta(it);
      } else if root.value.IndexRef? {
        ReplayKidItem(it.location - 1, it);
      }
      SetVersion(it.version);
    }
  }
}
