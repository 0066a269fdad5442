/** LSVPS::LoadPage with its stack and its loops. */
module PageLoader {
  import opened Pages
  import opened Chains
  import opened Loads

  /** DMMTrie::GetVersionUpperbound. */
  method FindVersionUpperbound(c: Chain, current: nat, v: nat) returns (r: nat)
    ensures r == GetVersionUpperbound(c, current, v)
  {
    if c.frozen == [] {
      return 0;
    }
    var i := 0;
    assert c.frozen[0..] == c.frozen;
    while i < |c.frozen| && c.frozen[i] <= v
      invariant i <= |c.frozen| && FirstAbove(c.frozen, v) == FirstAbove(c.frozen[i..], v)
    {
      assert c.frozen[i..][0] == c.frozen[i] && c.frozen[i..][1..] == c.frozen[i + 1..];
      i := i + 1;
    }
    if i == |c.frozen| {
      assert c.frozen[i..] == [];
      return current;
    }
    assert c.frozen[i..][0] == c.frozen[i];
    return c.frozen[i];
  }

  /** LSVPS::applyDelta: stops at the first item that is too new. */
  method ReplayItems(p: Page, items: seq<Item>, v: nat) returns (q: Page)
    ensures q == ApplyDelta(p, items, v)
  {
    q := p;
    assert items[0..] == items;
    for i := 0 to |items|
      invariant ApplyDelta(q, items[i..], v) == ApplyDelta(p, items, v)
    {
      assert items[i..][0] == items[i] && items[i..][1..] == items[i + 1..];
      if items[i].version > v {
        return;
      }
      q := UpdateDeltaItem(q, items[i]);
    }
    assert items[|items|..] == [];
  }

  /** The elements of a stack from the top down. */
  function FromTop<T>(stack: seq<T>): (r: seq<T>)
    ensures |r| == |stack|
  {
    if stack == [] then [] else [stack[|stack| - 1]] + FromTop(stack[..|stack| - 1])
  }

  lemma FromTopPush<T>(stack: seq<T>, x: T)
    ensures FromTop(stack + [x]) == [x] + FromTop(stack)
  {
    assert (stack + [x])[..|stack|] == stack;
  }

  /** One link of the walk, where the page is there. */
  lemma WalkStep(rest: map<Key, Stored>, stored: map<Key, Stored>, k: Key)
    requires Linked(stored) && Refers(stored, k) && Covers(rest, stored, k) && k.delta
    ensures PageLookup(stored, k).Some? && PageLookup(stored, k).value.Delta?
    ensures var d := PageLookup(stored, k).value.d;
            var (ds, b) := Walk(rest - {k}, d.last);
            Walk(rest, k) == (ds + [d], b) && Refers(stored, d.last) && Covers(rest - {k}, stored, d.last) &&
            (d.last.delta ==> d.last.version < k.version)
  {
    assert LinkedAt(stored, k);
    assert k in rest && k !in rest - {k};
  }

  /** The delta pages under a key are pushed, newest first. */
  method PushDeltas(stored: map<Key, Stored>, start: Key, stack: seq<DeltaPage>)
    returns (stack': seq<DeltaPage>, key: Key)
    requires Linked(stored) && Refers(stored, start)
    ensures key == Walk(stored, start).1 && FromTop(stack') == Walk(stored, start).0 + FromTop(stack)
    ensures !key.delta && Refers(stored, key)
  {
    stack', key := stack, start;
    ghost var rest := stored;
    ghost var all := Walk(stored, start);
    while key.delta
      invariant Refers(stored, key) && Covers(rest, stored, key)
      invariant Walk(rest, key).1 == all.1 && Walk(rest, key).0 + FromTop(stack') == all.0 + FromTop(stack)
      decreases key.version, key.delta
    {
      WalkStep(rest, stored, key);
      var d := PageLookup(stored, key).value.d;
      FromTopPush(stack', d);
      PushWalk(Walk(rest - {key}, d.last).0, d, FromTop(stack'));
      rest := rest - {key};
      stack' := stack' + [d];
      key := d.last;
    }
  }

  lemma PushWalk(ds: seq<DeltaPage>, d: DeltaPage, tail: seq<DeltaPage>)
    ensures (ds + [d]) + tail == ds + ([d] + tail)
  {
  }

  /** The stack is replayed from the top. */
  method ReplayStack(p: Page, stack: seq<DeltaPage>, v: nat) returns (q: Page)
    ensures q == ReplayDeltas(p, FromTop(stack), v)
  {
    q := p;
    var deltas := stack;
    while deltas != []
      invariant ReplayDeltas(q, FromTop(deltas), v) == ReplayDeltas(p, FromTop(stack), v)
      decreases |deltas|
    {
      var top := deltas[|deltas| - 1];
      assert FromTop(deltas)[0] == top && FromTop(deltas)[1..] == FromTop(deltas[..|deltas| - 1]);
      q := ReplayItems(q, top.items, v);
      deltas := deltas[..|deltas| - 1];
    }
  }

  /** LSVPS::LoadPage, on pages that the store keeps linked; a checkpoint that is not there
      is the exception. */
  method LoadFrom(c: Chain, current: nat, v: nat) returns (r: Loaded)
    requires Linked(c.stored) && Refers(c.stored, c.active.last)
    ensures r == LoadPage(c, current, v)
  {
    var stack := [c.active];
    var start := c.active.last;
    if v < c.base {
      var replay := FindVersionUpperbound(c, current, v);
      var sentinel := PageLookup(c.stored, Key(replay, true));
      if sentinel.Some? && sentinel.value.Delta? {
        assert LinkedAt(c.stored, Key(replay, true));
        stack := stack + [sentinel.value.d];
        start := sentinel.value.d.last;
      }
    }
    ghost var from := Start(c, current, v);
    assert from.1 == start && FromTop(stack) == from.0 + [c.active];
    var stack', key := PushDeltas(c.stored, start, stack);
    JoinStacks(Walk(c.stored, start).0, from.0, [c.active]);
    var base := EMPTY_PAGE;
    if key.version != 0 {
      var found := PageLookup(c.stored, key);
      if !(found.Some? && found.value.Base?) {
        return Fault;
      }
      base := found.value.p;
    }
    var q := ReplayStack(base, stack', v);
    return if q.version < v then Missing else Found(q);
  }

  lemma JoinStacks(a: seq<DeltaPage>, b: seq<DeltaPage>, c: seq<DeltaPage>)
    ensures a + (b + c) == a + b + c
  {
  }
}
