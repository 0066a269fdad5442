/** Laws of replaying a delta log: it respects views, splits at any point of a
    version-sorted log, and is idempotent on a log that has already been applied. */
module Replays {
  import opened Types
  import opened Pages

  /* ---- Views ---- */

  lemma SameNode(n: Node, m: Node, it: Item, jt: Item, loss: Loss)
    requires ViewNode(n, loss) == ViewNode(m, loss) && ViewItem(it, loss) == ViewItem(jt, loss)
    ensures ViewNode(SetNode(n, it), loss) == ViewNode(SetNode(m, jt), loss)
  {
    if n.Index? && loss.Hashless? {
      assert ViewSlots(n.slots, loss).Keys == n.slots.Keys && ViewSlots(m.slots, loss).Keys == m.slots.Keys;
      assert forall i :: i in n.slots ==> ViewSlots(n.slots, loss)[i] == Slot(n.slots[i].version, []);
      assert forall i :: i in m.slots ==> ViewSlots(m.slots, loss)[i] == Slot(m.slots[i].version, []);
    }
  }

  lemma RootKeys(n: Node, loss: Loss)
    ensures ViewRoot(n, loss).Leaf? == n.Leaf?
    ensures n.Index? ==> ViewRoot(n, loss).slots.Keys == n.slots.Keys
  {
  }

  /** Everything two pages with equal views agree on. */
  lemma SameParts(p: Page, q: Page, loss: Loss)
    requires Same(p, q, loss)
    ensures p.version == q.version && p.root.Some? == q.root.Some? && p.kids.Keys == q.kids.Keys
    ensures p.root.Some? ==> ViewRoot(p.root.value, loss) == ViewRoot(q.root.value, loss)
    ensures p.root.Some? ==> p.root.value.Leaf? == q.root.value.Leaf?
    ensures p.root.Some? && p.root.value.Index? ==> p.root.value.slots.Keys == q.root.value.slots.Keys
    ensures forall i :: i in p.kids ==> ViewNode(p.kids[i], loss) == ViewNode(q.kids[i], loss)
  {
    if p.root.Some? && q.root.Some? {
      RootKeys(p.root.value, loss);
      RootKeys(q.root.value, loss);
    }
    var a, b := View(p, loss), View(q, loss);
    assert p.root.Some? ==> a.root == Some(ViewRoot(p.root.value, loss));
    assert q.root.Some? ==> b.root == Some(ViewRoot(q.root.value, loss));
    assert a.kids.Keys == p.kids.Keys && b.kids.Keys == q.kids.Keys;
    assert forall i :: i in p.kids ==> a.kids[i] == ViewNode(p.kids[i], loss);
    assert forall i :: i in q.kids ==> b.kids[i] == ViewNode(q.kids[i], loss);
  }

  lemma SameFromParts(p: Page, q: Page, loss: Loss)
    requires p.version == q.version && p.root.Some? == q.root.Some? && p.kids.Keys == q.kids.Keys
    requires p.root.Some? ==> ViewRoot(p.root.value, loss) == ViewRoot(q.root.value, loss)
    requires forall i :: i in p.kids ==> ViewNode(p.kids[i], loss) == ViewNode(q.kids[i], loss)
    ensures Same(p, q, loss)
  {
    assert View(p, loss).kids == View(q, loss).kids;
  }

  lemma SameUpdateRoot(p: Page, q: Page, it: Item, jt: Item, loss: Loss)
    requires Same(p, q, loss) && ViewItem(it, loss) == ViewItem(jt, loss) && it.location == 0
    ensures Same(UpdateDeltaItem(p, it), UpdateDeltaItem(q, jt), loss)
  {
    SameParts(p, q, loss);
    var p', q' := UpdateDeltaItem(p, it), UpdateDeltaItem(q, jt);
    assert ViewRoot(p'.root.value, loss) == ViewRoot(q'.root.value, loss);
    SameFromParts(p', q', loss);
  }

  lemma SameAddChild(p: Page, q: Page, it: Item, jt: Item, loss: Loss)
    requires Same(p, q, loss) && ViewItem(it, loss) == ViewItem(jt, loss) && 1 <= it.location <= 16
    ensures var p', q' := UpdateDeltaItem(p, it), UpdateDeltaItem(q, jt);
            p'.root.Some? && q'.root.Some? && ViewRoot(p'.root.value, loss) == ViewRoot(q'.root.value, loss)
  {
    SameParts(p, q, loss);
  }

  lemma SameUpdateKid(p: Page, q: Page, it: Item, jt: Item, loss: Loss)
    requires Same(p, q, loss) && ViewItem(it, loss) == ViewItem(jt, loss) && 1 <= it.location <= 16
    ensures Same(UpdateDeltaItem(p, it), UpdateDeltaItem(q, jt), loss)
  {
    SameParts(p, q, loss);
    var p', q' := UpdateDeltaItem(p, it), UpdateDeltaItem(q, jt);
    var i: Nibble := it.location - 1;
    SameAddChild(p, q, it, jt, loss);
    if p.root.None? || p.root.value.Index? {
      var a, b := KidOf(p, i, FreshNode(it)), KidOf(q, i, FreshNode(jt));
      SameNode(a, b, it, jt, loss);
      assert p'.kids == p.kids[i := SetNode(a, it)] && q'.kids == q.kids[i := SetNode(b, jt)];
    }
    SameFromParts(p', q', loss);
  }

  lemma SameUpdate(p: Page, q: Page, it: Item, jt: Item, loss: Loss)
    requires Same(p, q, loss) && ViewItem(it, loss) == ViewItem(jt, loss)
    ensures Same(UpdateDeltaItem(p, it), UpdateDeltaItem(q, jt), loss)
  {
    if it.location == 0 {
      SameUpdateRoot(p, q, it, jt, loss);
    } else if it.location <= 16 {
      SameUpdateKid(p, q, it, jt, loss);
    } else {
      SameParts(p, q, loss);
      SameFromParts(UpdateDeltaItem(p, it), UpdateDeltaItem(q, jt), loss);
    }
  }

  lemma {:induction false} SameDelta(p: Page, q: Page, s: seq<Item>, t: seq<Item>, v: nat, loss: Loss)
    requires Same(p, q, loss) && SameItems(s, t, loss)
    ensures Same(ApplyDelta(p, s, v), ApplyDelta(q, t, v), loss)
    decreases |s|
  {
    if s != [] {
      assert ViewItem(s[0], loss) == ViewItem(t[0], loss);
      if s[0].version <= v {
        SameUpdate(p, q, s[0], t[0], loss);
        SameDelta(UpdateDeltaItem(p, s[0]), UpdateDeltaItem(q, t[0]), s[1..], t[1..], v, loss);
      }
    }
  }

  lemma SameShape(p: Page, q: Page, n: nat, loss: Loss)
    requires Same(p, q, loss) && Shaped(p, n)
    ensures Shaped(q, n)
  {
    SameParts(p, q, loss);
    forall i | i in q.kids ensures q.kids[i].Leaf? == p.kids[i].Leaf? {
      assert ViewNode(p.kids[i], loss) == ViewNode(q.kids[i], loss);
    }
  }

  /** A view that keeps more implies one that keeps less. */
  lemma SameWeaken(p: Page, q: Page, loss: Loss)
    requires Same(p, q, Lossless)
    ensures Same(p, q, loss)
  {
    SameParts(p, q, Lossless);
    if !loss.Lossless? {
      SameFromParts(p, q, loss);
    }
  }

  /* ---- Sorted logs ---- */

  ghost predicate Sorted(s: seq<Item>) {
    forall i, j :: 0 <= i < j < |s| ==> s[i].version <= s[j].version
  }

  ghost predicate Within(s: seq<Item>, top: nat) {
    forall i :: 0 <= i < |s| ==> s[i].version <= top
  }

  lemma {:induction false} ReplayAll(p: Page, s: seq<Item>, v: nat)
    requires Within(s, v)
    ensures ApplyDelta(p, s, v) == Replay(p, s)
    decreases |s|
  {
    if s != [] {
      ReplayAll(UpdateDeltaItem(p, s[0]), s[1..], v);
    }
  }

  lemma {:induction false} ReplayConcat(p: Page, s: seq<Item>, t: seq<Item>)
    ensures Replay(p, s + t) == Replay(Replay(p, s), t)
    decreases |s|
  {
    if s == [] {
      assert s + t == t;
    } else {
      assert (s + t)[0] == s[0] && (s + t)[1..] == s[1..] + t;
      ReplayConcat(UpdateDeltaItem(p, s[0]), s[1..], t);
    }
  }

  /** Cutting a version-sorted log in two and bounding each half separately is harmless,
      although each half stops at its own first newer item. */
  lemma {:induction false} DeltaConcat(p: Page, s: seq<Item>, t: seq<Item>, v: nat)
    requires Sorted(s + t)
    ensures ApplyDelta(p, s + t, v) == ApplyDelta(ApplyDelta(p, s, v), t, v)
    decreases |s|
  {
    if s == [] {
      assert s + t == t;
    } else {
      assert (s + t)[0] == s[0] && (s + t)[1..] == s[1..] + t;
      if s[0].version <= v {
        assert Sorted(s[1..] + t) by {
          var u := s + t;
          assert forall i, j :: 0 <= i < j < |u| - 1 ==> u[1..][i].version <= u[1..][j].version;
        }
        DeltaConcat(UpdateDeltaItem(p, s[0]), s[1..], t, v);
      } else if t != [] {
        assert (s + t)[|s|] == t[0];
        assert (s + t)[0].version <= (s + t)[|s|].version;
      }
    }
  }

  /** Items newer than the bound at the end of a log do not matter. */
  lemma {:induction false} DeltaBeyond(p: Page, s: seq<Item>, t: seq<Item>, v: nat)
    requires forall i :: 0 <= i < |t| ==> t[i].version > v
    ensures ApplyDelta(p, s + t, v) == ApplyDelta(p, s, v)
    decreases |s|
  {
    if s == [] {
      assert s + t == t;
    } else {
      assert (s + t)[0] == s[0] && (s + t)[1..] == s[1..] + t;
      if s[0].version <= v {
        DeltaBeyond(UpdateDeltaItem(p, s[0]), s[1..], t, v);
      }
    }
  }

  /* ---- Idempotence ---- */

  /** One update of a page whose calls carry n nibbles: its child's item, if the page
      has children, then its root's item. */
  predicate Paired(s: seq<Item>, n: nat)
    decreases |s|
  {
    if s == [] then true
    else if n == 0 then s[0].location == 0 && s[0].isLeaf && Paired(s[1..], n)
    else
      |s| >= 2 && 1 <= s[0].location <= 16 && s[0].isLeaf == (n == 1) &&
      s[1].location == 0 && !s[1].isLeaf && s[1].index == s[0].location - 1 && Paired(s[2..], n)
  }

  function Width(n: nat): nat { if n == 0 then 1 else 2 }

  function PutKid(kids: map<Nibble, Node>, i: Nibble, a: Item): map<Nibble, Node> {
    kids[i := SetNode(if i in kids then kids[i] else FreshNode(a), a)]
  }

  /** The joint effect of a child item and its root item. */
  function PairEffect(p: Page, a: Item, b: Item): Page
    requires p.root.Some? ==> p.root.value.Index?
  {
    Page(b.version,
         Some(Index(b.version, b.hash, RootOf(p).slots[b.index := Slot(b.version, b.childHash)])),
         PutKid(p.kids, b.index, a))
  }

  lemma PairSteps(p: Page, a: Item, b: Item)
    requires 1 <= a.location <= 16 && b.location == 0 && !b.isLeaf && b.index == a.location - 1
    requires p.root.Some? ==> p.root.value.Index?
    ensures UpdateDeltaItem(UpdateDeltaItem(p, a), b) == PairEffect(p, a, b)
  {
    var q := UpdateDeltaItem(p, a);
    assert q == Page(a.version, Some(AddChild(p, RootOf(p), b.index)),
                     p.kids[b.index := SetNode(KidOf(p, b.index, FreshNode(a)), a)]);
    var r := UpdateDeltaItem(q, b);
    assert r.root.value.slots == RootOf(p).slots[b.index := Slot(b.version, b.childHash)];
  }

  lemma PairIsEffect(p: Page, u: seq<Item>, n: nat)
    requires n > 0 && Paired(u, n) && |u| == 2
    requires p.root.Some? ==> p.root.value.Index?
    ensures Replay(p, u) == PairEffect(p, u[0], u[1])
  {
    assert u == [u[0], u[1]];
    ReplayTwo(p, u[0], u[1]);
    PairSteps(p, u[0], u[1]);
  }

  lemma NodeTwice(k: Node, a: Item, t: Item)
    requires k.Leaf? == a.isLeaf == t.isLeaf
    ensures SetNode(SetNode(SetNode(k, a), t), a) == SetNode(SetNode(k, t), a)
  {
    if k.Index? {
      assert SetNode(SetNode(SetNode(k, a), t), a).slots == SetNode(SetNode(k, t), a).slots;
    }
  }

  lemma KidsTwice(kids: map<Nibble, Node>, i: Nibble, a: Item, j: Nibble, c: Item)
    requires a.isLeaf == c.isLeaf
    requires forall x :: x in kids ==> kids[x].Leaf? == a.isLeaf
    ensures PutKid(PutKid(PutKid(kids, i, a), j, c), i, a) == PutKid(PutKid(kids, j, c), i, a)
  {
    var k := if i in kids then kids[i] else FreshNode(a);
    NodeTwice(k, a, c);
    assert SetNode(SetNode(k, a), a) == SetNode(k, a);
    var x, y := PutKid(PutKid(PutKid(kids, i, a), j, c), i, a), PutKid(PutKid(kids, j, c), i, a);
    assert x.Keys == y.Keys;
    assert x[i] == y[i];
    assert j != i ==> x[j] == y[j];
  }

  lemma SlotsTwice(m: map<Nibble, Slot>, i: Nibble, x: Slot, j: Nibble, y: Slot)
    ensures m[i := x][j := y][i := x] == m[j := y][i := x]
  {
  }

  lemma EffectTwice(p: Page, a: Item, b: Item, c: Item, d: Item)
    requires p.root.Some? ==> p.root.value.Index?
    requires a.isLeaf == c.isLeaf
    requires forall i :: i in p.kids ==> p.kids[i].Leaf? == a.isLeaf
    ensures PairEffect(PairEffect(PairEffect(p, a, b), c, d), a, b) == PairEffect(PairEffect(p, c, d), a, b)
  {
    KidsTwice(p.kids, b.index, a, d.index, c);
    SlotsTwice(RootOf(p).slots, b.index, Slot(b.version, b.childHash), d.index, Slot(d.version, d.childHash));
  }

  /** An older copy of an update is invisible once the update is applied again. */
  lemma Overwritten(p: Page, u: seq<Item>, t: seq<Item>, n: nat)
    requires Paired(u, n) && Paired(t, n) && |u| == Width(n) == |t| && Shaped(p, n)
    ensures Replay(Replay(Replay(p, u), t), u) == Replay(Replay(p, t), u)
  {
    if n == 0 {
      assert u == [u[0]] && t == [t[0]];
      ReplayOne(p, u[0]); ReplayOne(p, t[0]);
      ReplayOne(Replay(p, u), t[0]);
      ReplayOne(Replay(Replay(p, u), t), u[0]); ReplayOne(Replay(p, t), u[0]);
    } else {
      PairIsEffect(p, u, n); PairIsEffect(p, t, n);
      PairIsEffect(Replay(p, u), t, n);
      PairIsEffect(Replay(Replay(p, u), t), u, n); PairIsEffect(Replay(p, t), u, n);
      EffectTwice(p, u[0], u[1], t[0], t[1]);
    }
  }

  lemma {:induction false} PairedShape(p: Page, s: seq<Item>, n: nat)
    requires n <= 2 && Shaped(p, n) && Paired(s, n)
    ensures Shaped(Replay(p, s), n)
    decreases |s|
  {
    if s != [] {
      if n == 0 {
        PairedShape(UpdateDeltaItem(p, s[0]), s[1..], n);
      } else {
        PairSteps(p, s[0], s[1]);
        var q := PairEffect(p, s[0], s[1]);
        assert s[1..][0] == s[1] && s[1..][1..] == s[2..];
        PairedShape(q, s[2..], n);
      }
    }
  }

  /** The first update of a log and the rest of it. */
  lemma PairedSplit(s: seq<Item>, n: nat)
    requires Paired(s, n) && s != []
    ensures var w := Width(n);
            |s| >= w && s == s[..w] + s[w..] && Paired(s[..w], n) && Paired(s[w..], n)
  {
    if n == 0 {
      assert s[..1][1..] == [];
    } else {
      assert s[..2][2..] == [];
    }
  }

  lemma {:induction false} PairedConcat(s: seq<Item>, t: seq<Item>, n: nat)
    requires Paired(s, n) && Paired(t, n)
    ensures Paired(s + t, n)
    decreases |s|
  {
    if s == [] {
      assert s + t == t;
    } else {
      var w := Width(n);
      PairedSplit(s, n);
      PairedConcat(s[w..], t, n);
      assert (s + t)[w..] == s[w..] + t;
    }
  }

  /** Pages that update u makes equal are made equal by u after any further log. */
  lemma {:induction false} EqualAfter(p: Page, q: Page, u: seq<Item>, t: seq<Item>, n: nat)
    requires n <= 2 && Shaped(p, n) && Shaped(q, n) && Paired(u, n) && |u| == Width(n) && Paired(t, n)
    requires Replay(p, u) == Replay(q, u)
    ensures Replay(Replay(p, t), u) == Replay(Replay(q, t), u)
    decreases |t|
  {
    if t != [] {
      var w := Width(n);
      PairedSplit(t, n);
      var a, b := t[..w], t[w..];
      ReplayConcat(p, a, b); ReplayConcat(q, a, b);
      Overwritten(p, u, a, n); Overwritten(q, u, a, n);
      PairedShape(p, a, n); PairedShape(q, a, n);
      EqualAfter(Replay(p, a), Replay(q, a), u, b, n);
    }
  }

  /** An update that occurs in a log may be applied once more before it. */
  lemma {:induction false} Shadowed(p: Page, pre: seq<Item>, u: seq<Item>, post: seq<Item>, n: nat)
    requires n <= 2 && Shaped(p, n) && Paired(pre, n) && Paired(u, n) && |u| == Width(n) && Paired(post, n)
    ensures Replay(Replay(p, u), pre + u + post) == Replay(p, pre + u + post)
  {
    var q := Replay(p, u);
    PairedShape(p, u, n);
    ReplayConcat(p, pre + u, post); ReplayConcat(q, pre + u, post);
    ReplayConcat(p, pre, u); ReplayConcat(q, pre, u);
    Overwritten(p, u, u, n);
    UpdateTwice(p, u, n);
    EqualAfter(q, p, u, pre, n);
  }

  lemma UpdateTwice(p: Page, u: seq<Item>, n: nat)
    requires n <= 2 && Shaped(p, n) && Paired(u, n) && |u| == Width(n)
    ensures Replay(Replay(p, u), u) == Replay(p, u)
  {
    if n == 0 {
      assert u == [u[0]];
      ReplayOne(p, u[0]); ReplayOne(Replay(p, u), u[0]);
    } else {
      PairIsEffect(p, u, n); PairIsEffect(Replay(p, u), u, n);
      var k := KidOf(p, u[1].index, FreshNode(u[0]));
      assert SetNode(SetNode(k, u[0]), u[0]) == SetNode(k, u[0]);
      EffectOnce(p, u[0], u[1]);
    }
  }

  lemma EffectOnce(p: Page, a: Item, b: Item)
    requires p.root.Some? ==> p.root.value.Index?
    requires var k := KidOf(p, b.index, FreshNode(a)); SetNode(SetNode(k, a), a) == SetNode(k, a)
    ensures PairEffect(PairEffect(p, a, b), a, b) == PairEffect(p, a, b)
  {
    var q := PairEffect(p, a, b);
    var r := PairEffect(q, a, b);
    assert r.kids[b.index] == q.kids[b.index];
    assert r.kids == q.kids;
    assert r.root.value.slots == q.root.value.slots;
  }

  lemma Regroup<T>(a: seq<T>, b: seq<T>, c: seq<T>, d: seq<T>)
    ensures a + (b + c) + d == (a + b) + c + d == a + b + (c + d)
  {
  }

  lemma {:induction false} Reapply(p: Page, pre: seq<Item>, a: seq<Item>, post: seq<Item>, n: nat)
    requires n <= 2 && Shaped(p, n) && Paired(pre, n) && Paired(a, n) && Paired(post, n)
    ensures Replay(Replay(p, a), pre + a + post) == Replay(p, pre + a + post)
    decreases |a|, 1
  {
    if a == [] {
    } else {
      var w := Width(n);
      PairedSplit(a, n);
      ReapplyFirst(p, pre, a[..w], a[w..], post, n);
      ReplayConcat(p, a[..w], a[w..]);
    }
  }

  lemma {:induction false} ReapplyFirst(p: Page, pre: seq<Item>, u: seq<Item>, b: seq<Item>, post: seq<Item>, n: nat)
    requires n <= 2 && Shaped(p, n) && Paired(pre, n) && Paired(b, n) && Paired(post, n)
    requires Paired(u, n) && |u| == Width(n)
    ensures Replay(Replay(Replay(p, u), b), pre + (u + b) + post) == Replay(p, pre + (u + b) + post)
    decreases |b| + |u|, 0
  {
    PairedShape(p, u, n);
    PairedConcat(pre, u, n);
    PairedConcat(b, post, n);
    Regroup(pre, u, b, post);
    Reapply(Replay(p, u), pre + u, b, post, n);
    Shadowed(p, pre, u, b + post, n);
  }

  /** Re-applying any suffix of the log that produced a page changes nothing. */
  lemma ReapplySuffix(p: Page, s: seq<Item>, t: seq<Item>, n: nat)
    requires n <= 2 && Shaped(p, n) && Paired(s, n) && Paired(t, n)
    ensures Replay(Replay(p, s + t), t) == Replay(p, s + t)
  {
    var q := Replay(p, s);
    PairedShape(p, s, n);
    ReplayConcat(p, s, t);
    assert [] + t + [] == t;
    Reapply(q, [], t, [], n);
  }
}
