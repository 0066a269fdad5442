/** lru_cache_ and pagekeys_: a list of nodes in order of use and a hash map from each key to
    its node, proved against the recency lists of PageCache. */
module LruCache {
  import opened Types
  import opened PageCache

  /* ---- The list and the hash map as values ---- */

  /** Every position of the list is a node, and no node is listed twice. */
  ghost predicate Listed<K, P>(order: seq<nat>, nodes: map<nat, Entry<K, P>>) {
    (forall i :: 0 <= i < |order| ==> order[i] in nodes) &&
    forall i, j :: 0 <= i < j < |order| ==> order[i] != order[j]
  }

  ghost predicate IndexedAt<K, P>(order: seq<nat>, nodes: map<nat, Entry<K, P>>, index: map<K, nat>, i: nat)
    requires i < |order|
  {
    order[i] in nodes && nodes[order[i]].key in index && index[nodes[order[i]].key] == order[i]
  }

  ghost predicate Leads<K, P>(order: seq<nat>, nodes: map<nat, Entry<K, P>>, index: map<K, nat>, k: K)
    requires k in index
  {
    index[k] in nodes && nodes[index[k]].key == k && exists i :: 0 <= i < |order| && order[i] == index[k]
  }

  /** The hash map and the list are in bijection. */
  ghost predicate Indexed<K, P>(order: seq<nat>, nodes: map<nat, Entry<K, P>>, index: map<K, nat>) {
    |index| == |order| && (forall i :: 0 <= i < |order| ==> IndexedAt(order, nodes, index, i)) &&
    forall k :: k in index ==> Leads(order, nodes, index, k)
  }

  ghost function Entries<K, P>(order: seq<nat>, nodes: map<nat, Entry<K, P>>): (s: seq<Entry<K, P>>)
    requires Listed(order, nodes)
    ensures |s| == |order| && forall i :: 0 <= i < |s| ==> s[i] == nodes[order[i]]
  {
    seq(|order|, i requires 0 <= i < |order| && Listed(order, nodes) => nodes[order[i]])
  }

  lemma EntriesDistinct<K(!new), P>(order: seq<nat>, nodes: map<nat, Entry<K, P>>, index: map<K, nat>)
    requires Listed(order, nodes) && Indexed(order, nodes, index)
    ensures Distinct(Entries(order, nodes))
  {
    var s := Entries(order, nodes);
    forall i, j | 0 <= i < j < |s| ensures s[i].key != s[j].key {
      assert IndexedAt(order, nodes, index, i) && IndexedAt(order, nodes, index, j);
    }
  }

  /** A key is in the hash map exactly if it is in the list, and then leads to its page. */
  lemma IndexedFinds<K(!new), P>(order: seq<nat>, nodes: map<nat, Entry<K, P>>, index: map<K, nat>, k: K)
    requires Listed(order, nodes) && Indexed(order, nodes, index)
    ensures k in index <==> Has(Entries(order, nodes), k)
    ensures k in index ==> index[k] in nodes && Find(Entries(order, nodes), k) == Some(nodes[index[k]].page)
  {
    var s := Entries(order, nodes);
    EntriesDistinct(order, nodes, index);
    if k in index {
      assert Leads(order, nodes, index, k);
      var i :| 0 <= i < |order| && order[i] == index[k];
      assert s[i].key == k;
      FindAt(s, i);
    }
    if Has(s, k) {
      var i :| 0 <= i < |s| && s[i].key == k;
      assert IndexedAt(order, nodes, index, i);
    }
  }

  function Cut(order: seq<nat>, i: nat): (r: seq<nat>)
    requires i < |order|
    ensures |r| == |order| - 1 && forall j :: 0 <= j < |r| ==> r[j] == order[if j < i then j else j + 1]
  {
    order[..i] + order[i + 1..]
  }

  lemma CutListed<K, P>(order: seq<nat>, nodes: map<nat, Entry<K, P>>, i: nat)
    requires Listed(order, nodes) && i < |order|
    ensures Listed(Cut(order, i), nodes)
    ensures Entries(Cut(order, i), nodes) == Entries(order, nodes)[..i] + Entries(order, nodes)[i + 1..]
  {
  }

  lemma CutIndexed<K, P>(order: seq<nat>, nodes: map<nat, Entry<K, P>>, index: map<K, nat>, i: nat)
    requires Listed(order, nodes) && Indexed(order, nodes, index) && i < |order|
    ensures Indexed(Cut(order, i), nodes, index - {nodes[order[i]].key})
  {
    var key := nodes[order[i]].key;
    var order', index' := Cut(order, i), index - {key};
    assert IndexedAt(order, nodes, index, i);
    RemoveSize(index, key);
    forall j | 0 <= j < |order'| ensures IndexedAt(order', nodes, index', j) {
      assert IndexedAt(order, nodes, index, if j < i then j else j + 1);
    }
    forall k | k in index' ensures Leads(order', nodes, index', k) {
      assert Leads(order, nodes, index, k);
      var j :| 0 <= j < |order| && order[j] == index[k];
      assert order'[if j < i then j else j - 1] == index[k];
    }
  }

  lemma PushListed<K, P>(order: seq<nat>, nodes: map<nat, Entry<K, P>>, id: nat, e: Entry<K, P>)
    requires Listed(order, nodes) && id !in nodes
    ensures Listed([id] + order, nodes[id := e])
    ensures Entries([id] + order, nodes[id := e]) == [e] + Entries(order, nodes)
  {
  }

  lemma PushIndexed<K, P>(order: seq<nat>, nodes: map<nat, Entry<K, P>>, index: map<K, nat>, id: nat, e: Entry<K, P>)
    requires Listed(order, nodes) && Indexed(order, nodes, index) && id !in nodes && e.key !in index
    ensures Indexed([id] + order, nodes[id := e], index[e.key := id])
  {
    var order', nodes', index' := [id] + order, nodes[id := e], index[e.key := id];
    AddSize(index, e.key, id);
    forall j | 0 <= j < |order'| ensures IndexedAt(order', nodes', index', j) {
      if j > 0 { assert IndexedAt(order, nodes, index, j - 1); }
    }
    forall k | k in index' ensures Leads(order', nodes', index', k) {
      if k == e.key {
        assert order'[0] == index'[k];
      } else {
        assert Leads(order, nodes, index, k);
        var j :| 0 <= j < |order| && order[j] == index[k];
        assert order'[j + 1] == index'[k];
      }
    }
  }

  lemma RemoveSize<K>(index: map<K, nat>, k: K)
    requires k in index
    ensures |index - {k}| == |index| - 1
  {
    assert (index - {k}).Keys == index.Keys - {k};
    assert |index.Keys| == |index| && |(index - {k}).Keys| == |index - {k}|;
  }

  lemma AddSize<K>(index: map<K, nat>, k: K, id: nat)
    requires k !in index
    ensures |index[k := id]| == |index| + 1
  {
    assert index[k := id].Keys == index.Keys + {k};
    assert |index.Keys| == |index| && |index[k := id].Keys| == |index[k := id]|;
  }

  /* ---- The class ---- */

  class Lru<K(!new,==), P> {
    const capacity: nat
    /** The list, most recent first, as node identities. */
    var order: seq<nat>
    var nodes: map<nat, Entry<K, P>>
    var index: map<K, nat>
    var next: nat

    ghost predicate Valid()
      reads this
    {
      0 < capacity && Listed(order, nodes) && Indexed(order, nodes, index) && |order| <= capacity &&
      forall id :: id in nodes ==> id < next
    }

    ghost function Contents(): (s: seq<Entry<K, P>>)
      reads this
      requires Valid()
      ensures |s| <= capacity && Distinct(s)
    {
      EntriesDistinct(order, nodes, index);
      Entries(order, nodes)
    }

    constructor (maxSize: nat)
      requires maxSize > 0
      ensures Valid() && Contents() == [] && capacity == maxSize
    {
      capacity := maxSize;
      order, nodes, index, next := [], map[], map[], 0;
    }

    /** A node leaves the list, and its key the hash map. */
    method Erase(i: nat)
      requires Valid() && i < |order|
      modifies this
      ensures Valid() && |order| == |old(order)| - 1
      ensures Contents() == old(Contents())[..i] + old(Contents())[i + 1..]
    {
      CutListed(order, nodes, i);
      CutIndexed(order, nodes, index, i);
      index := index - {nodes[order[i]].key};
      order := Cut(order, i);
    }

    /** A new node in front. */
    method PushFront(k: K, p: P)
      requires Valid() && !Has(Contents(), k) && |order| < capacity
      modifies this
      ensures Valid() && Contents() == [Entry(k, p)] + old(Contents())
    {
      IndexedFinds(order, nodes, index, k);
      PushListed(order, nodes, next, Entry(k, p));
      PushIndexed(order, nodes, index, next, Entry(k, p));
      nodes := nodes[next := Entry(k, p)];
      order := [next] + order;
      index := index[k := next];
      next := next + 1;
    }

    /** The node of a key leaves the list. */
    method Remove(k: K)
      requires Valid() && k in index
      modifies this
      ensures Valid() && |order| == |old(order)| - 1
      ensures Contents() == Without(old(Contents()), k) && !Has(Contents(), k)
    {
      ghost var s := Contents();
      assert Leads(order, nodes, index, k);
      var i :| 0 <= i < |order| && order[i] == index[k];
      assert s[i].key == k;
      WithoutAt(s, k, i);
      WithoutIs(s, k);
      Erase(i);
    }

    /** GetPage's first half: a hit moves the node to the front. */
    method Get(k: K) returns (page: Option<P>)
      requires Valid()
      modifies this
      ensures Valid() && Contents() == Touch(old(Contents()), k) && page == Find(old(Contents()), k)
    {
      IndexedFinds(order, nodes, index, k);
      if k !in index {
        FindIs(Contents(), k);
        return None;
      }
      page := Some(nodes[index[k]].page);
      Remove(k);
      PushFront(k, page.value);
    }

    method PutPage(k: K, p: P)
      requires Valid()
      modifies this
      ensures Valid() && Contents() == PutFront(old(Contents()), capacity, k, p)
    {
      ghost var s := Contents();
      if |index| >= capacity {
        Erase(|order| - 1);
        assert Contents() == s[..|s| - 1];
      }
      IndexedFinds(order, nodes, index, k);
      if k in index {
        Remove(k);
      } else {
        WithoutNone(Contents(), k);
      }
      PushFront(k, p);
    }

    /** UpdatePageKey: the node found under the first key goes to the front under the second,
        with its page as it has become in the meantime. A second key that was in the cache
        already would leave a node no key leads to. */
    method UpdatePageKey(from: K, to: K, page: P)
      requires Valid() && (to == from || !Has(Contents(), to))
      modifies this
      ensures Valid() && Contents() == Moved(old(Contents()), from, to, page)
    {
      IndexedFinds(order, nodes, index, from);
      FindIs(Contents(), from);
      if from in index {
        WithoutKeepsOut(Contents(), from, to);
        Remove(from);
        PushFront(to, page);
      }
    }
  }

  lemma WithoutKeepsOut<K(!new), P>(s: seq<Entry<K, P>>, from: K, to: K)
    requires Distinct(s) && (to == from || !Has(s, to))
    ensures !Has(Without(s, from), to)
  {
    WithoutIs(s, from);
    HasIn(s, to);
    HasIn(Without(s, from), to);
  }
}
