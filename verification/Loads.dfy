/** LoadPage rebuilds a recoverable version exactly, and exactly the recoverable ones. */
module Loads {
  import opened Types
  import opened Pages
  import opened Replays
  import opened Chains
  import opened ChainInvariant

  function Flatten(ds: seq<DeltaPage>): seq<Item> {
    if ds == [] then [] else ds[0].items + Flatten(ds[1..])
  }

  lemma {:induction false} FlattenConcat(a: seq<DeltaPage>, b: seq<DeltaPage>)
    ensures Flatten(a + b) == Flatten(a) + Flatten(b)
    decreases |a|
  {
    if a == [] {
      assert a + b == b;
    } else {
      assert (a + b)[0] == a[0] && (a + b)[1..] == a[1..] + b;
      FlattenConcat(a[1..], b);
    }
  }

  lemma FlattenOne(d: DeltaPage)
    ensures Flatten([d]) == d.items
  {
    assert [d][1..] == [];
  }

  /** rest still holds every delta page that a walk from k can meet. */
  ghost predicate Covers(rest: map<Key, Stored>, stored: map<Key, Stored>, k: Key) {
    && (forall x :: x in rest ==> x in stored && rest[x] == stored[x])
    && (k.delta ==> forall x: Key :: x in stored && x.delta && x.version <= k.version ==> x in rest)
  }

  lemma {:induction false} WalkMeets(rest: map<Key, Stored>, stored: map<Key, Stored>, k: Key)
    requires Linked(stored) && Refers(stored, k) && Covers(rest, stored, k)
    ensures var (ds, b) := Walk(rest, k);
            b == BaseOf(stored, k) && Flatten(ds) == ItemsAt(stored, k)
    decreases k.version, k.delta
  {
    if k.delta {
      assert LinkedAt(stored, k);
      var d := stored[k].d;
      assert PageLookup(rest, k) == Some(Delta(d));
      WalkMeets(rest - {k}, stored, d.last);
      var (ds, b) := Walk(rest - {k}, d.last);
      FlattenOne(d);
      FlattenConcat(ds, [d]);
    }
  }

  /** The walk ends at the base of the links and meets exactly the items on them. */
  lemma WalkIsItems(stored: map<Key, Stored>, k: Key)
    requires Linked(stored) && Refers(stored, k)
    ensures var (ds, b) := Walk(stored, k);
            b == BaseOf(stored, k) && Flatten(ds) == ItemsAt(stored, k)
  {
    WalkMeets(stored, stored, k);
  }

  /** Bounding each delta page on its own equals bounding their concatenation. */
  lemma {:induction false} ReplayDeltasIsDelta(p: Page, ds: seq<DeltaPage>, v: nat)
    requires Sorted(Flatten(ds))
    ensures ReplayDeltas(p, ds, v) == ApplyDelta(p, Flatten(ds), v)
    decreases |ds|
  {
    if ds != [] {
      DeltaConcat(p, ds[0].items, Flatten(ds[1..]), v);
      assert Sorted(Flatten(ds[1..])) by { SortedTail(ds[0].items, Flatten(ds[1..]), MaxVersion(Flatten(ds))); }
      ReplayDeltasIsDelta(ApplyDelta(p, ds[0].items, v), ds[1..], v);
    }
  }

  function MaxVersion(s: seq<Item>): (m: nat)
    ensures Within(s, m)
  {
    if s == [] then 0
    else var m := MaxVersion(s[1..]); if s[0].version > m then s[0].version else m
  }

  lemma {:induction false} ReplayDeltasConcat(p: Page, a: seq<DeltaPage>, b: seq<DeltaPage>, v: nat)
    ensures ReplayDeltas(p, a + b, v) == ReplayDeltas(ReplayDeltas(p, a, v), b, v)
    decreases |a|
  {
    if a == [] {
      assert a + b == b;
    } else {
      assert (a + b)[0] == a[0] && (a + b)[1..] == a[1..] + b;
      ReplayDeltasConcat(ApplyDelta(p, a[0].items, v), a[1..], b, v);
    }
  }

  lemma ReplayDeltasOne(p: Page, d: DeltaPage, v: nat)
    ensures ReplayDeltas(p, [d], v) == ApplyDelta(p, d.items, v)
  {
    assert [d][1..] == [];
  }

  lemma {:induction false} FirstAboveIs(frozen: seq<nat>, v: nat)
    requires Increasing(frozen)
    ensures match FirstAbove(frozen, v)
            case Some(r) => r in frozen && v < r && forall x :: x in frozen && x > v ==> r <= x
            case None => forall x :: x in frozen ==> x <= v
    decreases |frozen|
  {
    if frozen != [] && frozen[0] <= v {
      FirstAboveIs(frozen[1..], v);
      assert forall x :: x in frozen ==> x == frozen[0] || x in frozen[1..];
    }
  }

  /** The sentinel's version: 0 if nothing was frozen, else the least frozen version above v,
      or the current version if there is none. */
  lemma UpperboundIs(c: Chain, current: nat, v: nat)
    requires Increasing(c.frozen)
    ensures var r := GetVersionUpperbound(c, current, v);
            if c.frozen == [] then r == 0
            else if exists x :: x in c.frozen && x > v then
              r in c.frozen && r > v && forall x :: x in c.frozen && x > v ==> r <= x
            else r == current
  {
    FirstAboveIs(c.frozen, v);
  }

  /* ---- The two ways of loading ---- */

  function Answer(q: Page, v: nat): Loaded {
    if q.version < v then Missing else Found(q)
  }

  lemma LoadFromActive(c: Chain, current: nat, v: nat)
    requires Linked(c.stored) && Refers(c.stored, c.active.last) && Start(c, current, v) == ([], c.active.last)
    ensures var (ds, b) := Walk(c.stored, c.active.last);
            b == BaseOf(c.stored, c.active.last) && Flatten(ds) == ItemsAt(c.stored, c.active.last) &&
            LoadPage(c, current, v) == Answer(ReplayDeltas(PageAt(c.stored, b), ds + [c.active], v), v)
  {
    var (ds, b) := Walk(c.stored, c.active.last);
    WalkIsItems(c.stored, c.active.last);
    BaseRefers(c.stored, c.active.last);
    if b.version > 0 { assert LinkedAt(c.stored, b); }
    assert ds + [] + [c.active] == ds + [c.active];
  }

  /** Without a sentinel the whole active chain is replayed. */
  lemma LoadActive(c: Chain, n: nat, top: nat, current: nat, v: nat)
    requires Structure(c, n, top) && Start(c, current, v) == ([], c.active.last)
    ensures LoadPage(c, current, v) == Answer(Rebuilt(c.stored, c.active.last, c.active.items, v), v)
  {
    var (ds, b) := Walk(c.stored, c.active.last);
    LoadFromActive(c, current, v);
    FlattenOne(c.active);
    FlattenConcat(ds, [c.active]);
    ReplayDeltasIsDelta(PageAt(c.stored, b), ds + [c.active], v);
  }

  /** What LoadPage replays when it starts from the sentinel frozen at r. */
  lemma LoadFromSentinel(c: Chain, current: nat, v: nat, r: nat)
    requires Linked(c.stored) && v < c.base && FirstAbove(c.frozen, v) == Some(r) && Key(r, true) in c.stored
    ensures c.stored[Key(r, true)].Delta?
    ensures var d := c.stored[Key(r, true)].d;
            var (ds, b) := Walk(c.stored, d.last);
            Refers(c.stored, d.last) && b == BaseOf(c.stored, d.last) && Refers(c.stored, b) && !b.delta &&
            LoadPage(c, current, v) == Answer(ReplayDeltas(PageAt(c.stored, b), ds + [d] + [c.active], v), v)
  {
    assert LinkedAt(c.stored, Key(r, true));
    var d := c.stored[Key(r, true)].d;
    WalkIsItems(c.stored, d.last);
    BaseRefers(c.stored, d.last);
    var b := BaseOf(c.stored, d.last);
    if b.version > 0 { assert LinkedAt(c.stored, b); }
  }

  lemma ReplaySentinel(p: Page, ds: seq<DeltaPage>, d: DeltaPage, active: DeltaPage, v: nat, r: nat)
    requires Sorted(Flatten(ds) + d.items) && NoOlder(active.items, r) && v < r
    ensures ReplayDeltas(p, ds + [d] + [active], v) == ApplyDelta(p, Flatten(ds) + d.items, v)
  {
    FlattenOne(d);
    FlattenConcat(ds, [d]);
    ReplayDeltasConcat(p, ds + [d], [active], v);
    ReplayDeltasIsDelta(p, ds + [d], v);
    ReplayDeltasOne(ReplayDeltas(p, ds + [d], v), active, v);
  }

  /** With the sentinel frozen at r, the chain below r is replayed; the active page adds nothing. */
  lemma LoadSentinel(c: Chain, n: nat, top: nat, current: nat, v: nat, r: nat)
    requires Structure(c, n, top) && v < c.base && FirstAbove(c.frozen, v) == Some(r)
    ensures Key(r, true) in c.stored && v < r
    ensures LoadPage(c, current, v) == Answer(Rebuilt(c.stored, Key(r, true), [], v), v)
  {
    FirstAboveIs(c.frozen, v);
    var k := Key(r, true);
    LoadFromSentinel(c, current, v, r);
    var d := c.stored[k].d;
    var (ds, b) := Walk(c.stored, d.last);
    WalkIsItems(c.stored, d.last);
    assert ItemsAt(c.stored, k) == Flatten(ds) + d.items == ItemsAt(c.stored, k) + [];
    ReplaySentinel(PageAt(c.stored, b), ds, d, c.active, v, r);
  }

  /* ---- Exactness ---- */

  /** The version can be rebuilt: no checkpoint is newer than it, or the base page that
      the first delta page frozen after it leads to is not newer than it. */
  predicate Recoverable(c: Chain, v: nat) {
    v >= c.base ||
    match FirstAbove(c.frozen, v)
    case Some(r) => Key(r, true) in c.stored && BaseOf(c.stored, Key(r, true)).version <= v
    case None => false
  }

  /** Each snapshot carries the version of the commit that left it. */
  ghost predicate Stamped(snaps: map<nat, Page>) {
    forall v :: v in snaps ==> snaps[v].version == v
  }

  lemma {:induction false} AtVersion(snaps: map<nat, Page>, v: nat)
    requires Stamped(snaps)
    ensures At(snaps, v).version <= v
    ensures At(snaps, v).version == v <==> v in snaps || v == 0
  {
    if v !in snaps && v > 0 {
      AtVersion(snaps, v - 1);
    }
  }

  /** What a correct load of version v answers. */
  ghost predicate Exact(r: Loaded, snaps: map<nat, Page>, v: nat, loss: Loss) {
    if v in snaps || v == 0 then r.Found? && Same(r.p, At(snaps, v), loss) else r == Missing
  }

  lemma AnswerExact(q: Page, snaps: map<nat, Page>, v: nat, loss: Loss)
    requires Stamped(snaps) && Same(q, At(snaps, v), loss)
    ensures Exact(Answer(q, v), snaps, v, loss)
  {
    AtVersion(snaps, v);
    SameParts(q, At(snaps, v), loss);
  }

  /** LoadPage returns the page as commit v left it, and nullptr if v did not touch it. */
  lemma LoadRecoverable(c: Chain, snaps: map<nat, Page>, n: nat, top: nat, current: nat, v: nat, loss: Loss)
    requires Inv(c, snaps, n, top, loss) && Stamped(snaps) && Recoverable(c, v)
    ensures Exact(LoadPage(c, current, v), snaps, v, loss)
  {
    if v >= c.base {
      LoadActive(c, n, top, current, v);
      AnswerExact(Rebuilt(c.stored, c.active.last, c.active.items, v), snaps, v, loss);
    } else {
      var r := FirstAbove(c.frozen, v).value;
      LoadSentinel(c, n, top, current, v, r);
      AnswerExact(Rebuilt(c.stored, Key(r, true), [], v), snaps, v, loss);
    }
  }

  /* ---- Chains whose active delta page never went through the pool's file ---- */

  /** b_update_count_ counts the items since the last checkpoint, a delta page is frozen
      whenever it reaches a multiple of TD, and no item is older than its base page. */
  ghost predicate Synced(c: Chain) {
    && c.active.bcount == |FullLog(c)| && c.active.bcount % TD == c.active.count
    && NoOlder(FullLog(c), c.base)
    && forall r: nat :: Key(r, true) in c.stored ==> SyncedAt(c.stored, r)
  }

  ghost predicate SyncedAt(stored: map<Key, Stored>, r: nat) {
    BaseOf(stored, Key(r, true)).version < r &&
    NoOlder(ItemsAt(stored, Key(r, true)), BaseOf(stored, Key(r, true)).version)
  }

  /** An unrecoverable version comes back as some later page. */
  lemma LoadUnrecoverable(c: Chain, n: nat, top: nat, current: nat, v: nat)
    requires Structure(c, n, top) && Synced(c) && top <= current && !Recoverable(c, v)
    ensures var l := LoadPage(c, current, v); l.Found? && l.p.version > v
  {
    FirstAboveIs(c.frozen, v);
    match FirstAbove(c.frozen, v)
    case Some(r) =>
      LoadSentinel(c, n, top, current, v, r);
      var b := BaseOf(c.stored, Key(r, true));
      BaseRefers(c.stored, Key(r, true));
      assert LinkedAt(c.stored, b);
      assert SyncedAt(c.stored, r);
    case None =>
      assert current !in c.frozen;
      LoadActive(c, n, top, current, v);
      var b := BaseOf(c.stored, c.active.last);
      assert LinkedAt(c.stored, b);
  }

  /** LoadPage is right about a version if and only if the version is recoverable. */
  lemma LoadExactIff(c: Chain, snaps: map<nat, Page>, n: nat, top: nat, current: nat, v: nat, loss: Loss)
    requires Inv(c, snaps, n, top, loss) && Stamped(snaps) && Synced(c) && top <= current
    ensures Exact(LoadPage(c, current, v), snaps, v, loss) <==> Recoverable(c, v)
  {
    if Recoverable(c, v) {
      LoadRecoverable(c, snaps, n, top, current, v, loss);
    } else {
      LoadUnrecoverable(c, n, top, current, v);
      AtVersion(snaps, v);
      var p := LoadPage(c, current, v).p;
      if Same(p, At(snaps, v), loss) {
        SameParts(p, At(snaps, v), loss);
      }
    }
  }

  /** If each checkpoint has a delta page frozen at the same version, nothing is lost. */
  lemma CoveredIsRecoverable(c: Chain, n: nat, top: nat, v: nat)
    requires Structure(c, n, top) && Synced(c)
    requires forall b: nat :: Key(b, false) in c.stored ==> b in c.frozen
    ensures Recoverable(c, v)
  {
    if v < c.base {
      FirstAboveIs(c.frozen, v);
      BaseRefers(c.stored, c.active.last);
      assert Key(c.base, false) in c.stored;
      var r := FirstAbove(c.frozen, v).value;
      var b := BaseOf(c.stored, Key(r, true));
      BaseRefers(c.stored, Key(r, true));
      assert SyncedAt(c.stored, r);
      assert b == Key(b.version, false) && (b.version > 0 ==> b in c.stored);
    }
  }

  /** A load of the newest version replays fewer than TB items. */
  lemma NewestLoadIsShort(c: Chain)
    requires Linked(c.stored) && Refers(c.stored, c.active.last) && Synced(c) && c.active.bcount < TB
    ensures var (ds, b) := Walk(c.stored, c.active.last);
            b == BaseOf(c.stored, c.active.last) && |Flatten(ds + [c.active])| < TB
  {
    var (ds, b) := Walk(c.stored, c.active.last);
    WalkIsItems(c.stored, c.active.last);
    FlattenOne(c.active);
    FlattenConcat(ds, [c.active]);
  }
}
