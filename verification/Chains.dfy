/** The life of one page id: its active delta page, the frozen delta pages and
    checkpoints stored for it, and how LoadPage rebuilds an old version. */
module Chains {
  import opened Types
  import opened Pages

  /** A page key with its page id and (constant) trie id left out. */
  datatype Key = Key(version: nat, delta: bool)

  datatype DeltaPage = DeltaPage(items: seq<Item>, last: Key, count: nat, bcount: nat)

  datatype Stored = Delta(d: DeltaPage) | Base(p: Page)

  /** cur and base are the pair in page_versions_, frozen the list in deltapage_versions_. */
  datatype Chain = Chain(active: DeltaPage, stored: map<Key, Stored>, cur: nat, base: nat, frozen: seq<nat>)

  const NO_PAGE := Key(0, false)

  const NEW_CHAIN := Chain(DeltaPage([], NO_PAGE, 0, 0), map[], 0, 0, [])

  /* ---- Writing ---- */

  function Log(c: Chain, items: seq<Item>): Chain {
    c.(active := c.active.(items := c.active.items + items,
                           count := c.active.count + |items|, bcount := c.active.bcount + |items|))
  }

  /** Stores a copy of the active delta page under version w and empties it. */
  function Freeze(c: Chain, w: nat): Chain {
    c.(stored := c.stored[Key(w, true) := Delta(c.active)],
       active := c.active.(items := [], last := Key(w, true), count := 0),
       frozen := c.frozen + [w])
  }

  function Checkpoint(c: Chain, w: nat, p: Page): Chain {
    c.(stored := c.stored[Key(w, false) := Base(p)],
       active := c.active.(last := Key(w, false), bcount := 0),
       cur := w, base := w)
  }

  /** The tail of UpdatePage: freeze after TD items, checkpoint after TB. */
  function Settle(c: Chain, w: nat, q: Page): Chain {
    var c' := if c.active.count >= TD then Freeze(c, w) else c;
    if c'.active.bcount >= TB then Checkpoint(c', w, q) else c'.(cur := w)
  }

  /** UpdatePage with a delta page: update, log, settle. */
  function Step(H: Hash, c: Chain, p: Page, pid: Path, w: nat, call: Call): (Chain, Page)
    requires ValidCall(call, |call.nibbles|) && Shaped(p, |call.nibbles|)
  {
    UpdatePageShape(H, p, pid, w, call);
    var q := UpdatePage(H, p, pid, w, call);
    (Settle(Log(c, Logged(q, w, call)), w, q), q)
  }

  function Steps(H: Hash, c: Chain, p: Page, pid: Path, w: nat, calls: seq<Call>, n: nat): (Chain, Page)
    requires n <= 2 && Shaped(p, n) && forall i :: 0 <= i < |calls| ==> |calls[i].nibbles| == n
    decreases |calls|
  {
    if calls == [] then (c, p)
    else
      UpdatePageShape(H, p, pid, w, calls[0]);
      var (c1, p1) := Step(H, c, p, pid, w, calls[0]);
      Steps(H, c1, p1, pid, w, calls[1..], n)
  }

  /** UpdatePage without a delta page, repeated. */
  function Updates(H: Hash, p: Page, pid: Path, w: nat, calls: seq<Call>, n: nat): (q: Page)
    requires n <= 2 && Shaped(p, n) && forall i :: 0 <= i < |calls| ==> |calls[i].nibbles| == n
    ensures Shaped(q, n) && (calls != [] ==> q.version == w && q.root.Some?)
    decreases |calls|
  {
    if calls == [] then p
    else
      UpdatePageShape(H, p, pid, w, calls[0]);
      Updates(H, UpdatePage(H, p, pid, w, calls[0]), pid, w, calls[1..], n)
  }

  /** The body of CalcRootHash for one page id once its calls are known. */
  function CommitPage(H: Hash, c: Chain, p: Page, pid: Path, w: nat, calls: seq<Call>, n: nat): (Chain, Page)
    requires n <= 2 && Shaped(p, n) && forall i :: 0 <= i < |calls| ==> |calls[i].nibbles| == n
  {
    if 2 * |calls| + c.active.count >= 2 * TD then
      var c1 := if c.active.count != 0 then Freeze(c, w) else c;
      var q := Updates(H, p, pid, w, calls, n);
      (Checkpoint(c1.(cur := w), w, q), q)
    else
      Steps(H, c, p, pid, w, calls, n)
  }

  /* ---- Reading ---- */

  /** std::upper_bound on the frozen versions. */
  function FirstAbove(frozen: seq<nat>, v: nat): Option<nat> {
    if frozen == [] then None
    else if frozen[0] > v then Some(frozen[0])
    else FirstAbove(frozen[1..], v)
  }

  function GetVersionUpperbound(c: Chain, current: nat, v: nat): nat {
    if c.frozen == [] then 0
    else match FirstAbove(c.frozen, v)
         case Some(r) => r
         case None => current
  }

  /** pageLookup: version 0 is never found. */
  function PageLookup(stored: map<Key, Stored>, k: Key): Option<Stored> {
    if k.version == 0 || k !in stored then None else Some(stored[k])
  }

  /** Keys of delta pages hold delta pages, keys of base pages base pages, and every
      delta page points to an older delta page or to a base page no newer than itself. */
  predicate Linked(stored: map<Key, Stored>) {
    forall k :: k in stored ==> LinkedAt(stored, k)
  }

  predicate LinkedAt(stored: map<Key, Stored>, k: Key) {
    k in stored && k.version > 0 &&
    match stored[k]
    case Base(p) => !k.delta && p.version == k.version
    case Delta(d) => k.delta && Refers(stored, d.last) &&
                     if d.last.delta then d.last.version < k.version else d.last.version <= k.version
  }

  predicate Refers(stored: map<Key, Stored>, k: Key) {
    if k.delta then k in stored else k.version > 0 ==> k in stored
  }

  /** The loop of LoadPage that follows last page keys: the delta pages met, oldest
      first, and the key at which the walk stops. A page met once is not met again: on
      links that went in circles, which Linked rules out, the source would not stop. */
  function Walk(stored: map<Key, Stored>, k: Key): (seq<DeltaPage>, Key)
    decreases stored.Keys
  {
    if !k.delta then ([], k)
    else match PageLookup(stored, k)
         case Some(Delta(d)) =>
           assert k in stored && k !in stored - {k};
           var (ds, b) := Walk(stored - {k}, d.last); (ds + [d], b)
         case _ => ([], k)
  }

  function ReplayDeltas(p: Page, ds: seq<DeltaPage>, v: nat): Page
    decreases |ds|
  {
    if ds == [] then p else ReplayDeltas(ApplyDelta(p, ds[0].items, v), ds[1..], v)
  }

  /** nullptr, a page, or the exception "BasePage not found". */
  datatype Loaded = Missing | Found(p: Page) | Fault

  /** Where the walk starts, and the sentinel delta page if one is replayed. */
  function Start(c: Chain, current: nat, v: nat): (seq<DeltaPage>, Key) {
    if v >= c.base then ([], c.active.last)
    else match PageLookup(c.stored, Key(GetVersionUpperbound(c, current, v), true))
         case Some(Delta(d)) => ([d], d.last)
         case _ => ([], c.active.last)
  }

  function LoadPage(c: Chain, current: nat, v: nat): Loaded {
    var (sentinel, k) := Start(c, current, v);
    var (ds, b) := Walk(c.stored, k);
    var base := if b.version == 0 then Found(EMPTY_PAGE)
                else match PageLookup(c.stored, b)
                     case Some(Base(p)) => Found(p)
                     case _ => Fault;
    match base
    case Found(p) =>
      var q := ReplayDeltas(p, ds + sentinel + [c.active], v);
      if q.version < v then Missing else Found(q)
    case other => other
  }
}
