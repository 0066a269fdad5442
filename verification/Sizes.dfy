/** What goes into a file fits: delta pages never hold more than TD items, leaf keys are no
    longer than the page id and two digits, and numbers are below the bound that versions
    and places in the value log are below. */
module Sizes {
  import opened Types
  import opened Pages
  import opened Replays
  import opened Chains
  import opened ChainInvariant
  import opened PageCommits
  import opened Lost
  import opened Copies
  import opened DeltaCodec
  import opened BaseCodec

  /* ---- How many items ---- */

  ghost predicate Sized(c: Chain) {
    |c.active.items| <= TD && forall k :: k in c.stored && c.stored[k].Delta? ==> |c.stored[k].d.items| <= TD
  }

  lemma {:induction false} PairedIsEven(s: seq<Item>, n: nat)
    requires Paired(s, n) && n > 0
    ensures |s| % 2 == 0
    decreases |s|
  {
    if s != [] { PairedIsEven(s[2..], n); }
  }

  /** One call fills the delta page at most. */
  lemma LogSized(c: Chain, n: nat, w: nat, items: seq<Item>)
    requires Structure(c, n, w) && Counters(c) && Sized(c) && |items| == Width(n)
    ensures Sized(Log(c, items)) && |Log(c, items).active.items| <= TD
  {
    if n > 0 { PairedIsEven(c.active.items, n); }
  }

  lemma SettleSized(c: Chain, w: nat, q: Page)
    requires Sized(c)
    ensures Sized(Settle(c, w, q))
  {
  }

  lemma {:induction false} StepsSized(H: Hash, b: Chain, c: Chain, p: Page, pid: Path, w: nat, calls: seq<Call>, n: nat)
    requires Shaped(p, n) && ValidCalls(calls, n) && Budget(c, w, |calls|) && Stage(b, c, n, w) && Sized(c)
    ensures Sized(Steps(H, c, p, pid, w, calls, n).0)
    decreases |calls|
  {
    if calls != [] {
      StepStage(H, b, c, p, pid, w, calls[0], n, |calls|);
      LoggedItems(H, p, pid, w, calls[0]);
      UpdatePageShape(H, p, pid, w, calls[0]);
      var q := UpdatePage(H, p, pid, w, calls[0]);
      LogSized(c, n, w, Logged(q, w, calls[0]));
      SettleSized(Log(c, Logged(q, w, calls[0])), w, q);
      StepsUnfold(H, c, p, pid, w, calls, n);
      var (c1, p1) := Step(H, c, p, pid, w, calls[0]);
      StepsSized(H, b, c1, p1, pid, w, calls[1..], n);
    }
  }

  /** No commit makes a delta page of more than TD items, active or frozen, whatever the
      base count. */
  lemma CommitSized(H: Hash, c: Chain, p: Page, pid: Path, top: nat, w: nat, calls: seq<Call>, n: nat)
    requires Shaped(p, n) && calls != [] && ValidCalls(calls, n) && Counters(c) && top < w
    requires Structure(c, n, top) && Sized(c)
    ensures Sized(CommitPage(H, c, p, pid, w, calls, n).0)
  {
    if !Oversize(c, calls) {
      StepsSized(H, c, c, p, pid, w, calls, n);
    }
  }

  lemma CopySized(c: Chain, d: Chain, loss: Loss)
    requires ChainCopy(c, d, loss) && Sized(c)
    ensures Sized(d)
  {
    forall k | k in d.stored && d.stored[k].Delta? ensures |d.stored[k].d.items| <= TD {
      assert CopyOf(c.stored[k], d.stored[k], loss);
    }
  }

  /** So the overflow error of DeltaPage::SerializeTo is unreachable. */
  lemma SizedFits(c: Chain, pid: Path, k: Key)
    requires Sized(c) && |pid| <= 2624
    ensures PrintDelta(HexString(pid), c.active).Some?
    ensures k in c.stored && c.stored[k].Delta? ==> PrintDelta(HexString(pid), c.stored[k].d).Some?
  {
    DeltaAlwaysFits(HexString(pid), c.active);
    if k in c.stored && c.stored[k].Delta? { DeltaAlwaysFits(HexString(pid), c.stored[k].d); }
  }

  /* ---- Numbers and keys ---- */

  /** Numbers are below top, if there is one; with full set all hashes have 32 bytes. */
  datatype Bound = Bound(top: Option<nat>, full: bool)

  const ANY := Bound(None, false)

  predicate Num(x: nat, bound: Bound) { bound.top.Some? ==> x < bound.top.value }

  predicate NumLoc(loc: Location, bound: Bound) {
    Num(loc.fileID, bound) && Num(loc.offset, bound) && Num(loc.size, bound)
  }

  predicate NumNode(n: Node, bound: Bound) {
    Num(n.version, bound) &&
    if n.Leaf? then NumLoc(n.loc, bound) else forall i :: i in n.slots ==> Num(n.slots[i].version, bound)
  }

  ghost predicate FitPage(pid: Bytes, p: Page, bound: Bound) {
    && ShortKeys(pid, p) && Num(p.version, bound)
    && (p.root.Some? ==> NumNode(p.root.value, bound))
    && (forall i :: i in p.kids ==> NumNode(p.kids[i], bound))
    && (bound.full ==> KidsFull(p))
  }

  /** The hashes of the second level, which a file returns, have 32 bytes. */
  ghost predicate KidsFull(p: Page) {
    forall i :: i in p.kids ==> FullNode(p.kids[i])
  }

  predicate RootFull(p: Page, bound: Bound) {
    bound.full ==> p.root.Some? && |p.root.value.hash| == HASH_SIZE
  }

  /** Fields of the other kind unset, numbers bounded. */
  predicate FitItem(it: Item, bound: Bound) {
    Plain(it) && Num(it.version, bound) && NumLoc(it.loc, bound) && it.location <= 16 &&
    (bound.full ==> FullHashes(it))
  }

  ghost predicate FitItems(items: seq<Item>, bound: Bound) {
    forall i :: 0 <= i < |items| ==> FitItem(items[i], bound)
  }

  ghost predicate FitDelta(d: DeltaPage, bound: Bound) {
    d.count == |d.items| && FitItems(d.items, bound) && Num(d.last.version, bound)
  }

  /** Its root carries the page's own version. */
  predicate StampedPage(p: Page) {
    p.root.Some? && p.root.value.version == p.version
  }

  ghost predicate FitStored(pid: Bytes, x: Stored, bound: Bound) {
    match x
    case Delta(d) => FitDelta(d, bound)
    case Base(p) => FitPage(pid, p, bound) && StampedPage(p) && RootFull(p, bound)
  }

  ghost predicate FitChain(pid: Bytes, c: Chain, bound: Bound) {
    FitDelta(c.active, bound) && forall k :: k in c.stored ==> FitStored(pid, c.stored[k], bound)
  }

  /** The hash function yields 32 bytes. */
  ghost predicate WideHash(H: Hash) {
    forall x :: |H(x)| == HASH_SIZE
  }

  /** A child hash has 32 bytes, and no value is empty, as that of a deleted key is. */
  predicate Solid(call: Call) {
    if |call.nibbles| == 2 then |call.childHash| == HASH_SIZE else call.value != []
  }

  predicate FitCall(call: Call, bound: Bound) {
    NumLoc(call.loc, bound) && (bound.full ==> Solid(call))
  }

  ghost predicate FitCalls(calls: seq<Call>, bound: Bound) {
    forall x :: 0 <= x < |calls| ==> FitCall(calls[x], bound)
  }

  /* ---- Updating ---- */

  lemma UpdateFits(H: Hash, p: Page, pid: Path, w: nat, call: Call, bound: Bound)
    requires ValidCall(call, |call.nibbles|) && Shaped(p, |call.nibbles|)
    requires FitPage(HexString(pid), p, bound) && Num(w, bound) && FitCall(call, bound) && Num(0, bound)
    requires bound.full ==> WideHash(H)
    ensures var q := UpdatePage(H, p, pid, w, call);
            FitPage(HexString(pid), q, bound) && StampedPage(q) && RootFull(q, bound)
  {
    UpdateKeepsShort(H, p, pid, w, call);
  }

  lemma KidFull(H: Hash, p: Page, pid: Path, w: nat, call: Call)
    requires ValidCall(call, |call.nibbles|) && |call.nibbles| > 0 && Shaped(p, |call.nibbles|)
    requires WideHash(H) && KidsFull(p) && Solid(call)
    ensures FullNode(UpdateKid(H, p, pid, w, call))
  {
  }

  lemma LoggedFit(p: Page, w: nat, call: Call, bound: Bound)
    requires ValidCall(call, |call.nibbles|) && Shaped(p, |call.nibbles|) && p.root.Some?
    requires |call.nibbles| > 0 ==> call.nibbles[0] in p.kids
    requires Num(w, bound) && FitCall(call, bound) && Num(0, bound)
    requires RootFull(p, bound) && (bound.full ==> KidsFull(p))
    ensures FitItems(Logged(p, w, call), bound)
  {
  }

  lemma LogFits(pid: Bytes, c: Chain, items: seq<Item>, bound: Bound)
    requires FitChain(pid, c, bound) && FitItems(items, bound)
    ensures FitChain(pid, Log(c, items), bound)
  {
  }

  lemma FreezeFits(pid: Bytes, c: Chain, w: nat, bound: Bound)
    requires FitChain(pid, c, bound) && Num(w, bound)
    ensures FitChain(pid, Freeze(c, w), bound)
  {
  }

  lemma CheckpointFits(pid: Bytes, c: Chain, w: nat, q: Page, bound: Bound)
    requires FitChain(pid, c, bound) && Num(w, bound) && FitPage(pid, q, bound) && StampedPage(q) && RootFull(q, bound)
    ensures FitChain(pid, Checkpoint(c, w, q), bound)
  {
  }

  lemma SettleFits(pid: Bytes, c: Chain, w: nat, q: Page, bound: Bound)
    requires FitChain(pid, c, bound) && Num(w, bound) && FitPage(pid, q, bound) && StampedPage(q) && RootFull(q, bound)
    ensures FitChain(pid, Settle(c, w, q), bound)
  {
    if c.active.count >= TD { FreezeFits(pid, c, w, bound); }
    var c1 := if c.active.count >= TD then Freeze(c, w) else c;
    if c1.active.bcount >= TB { CheckpointFits(pid, c1, w, q, bound); }
  }

  lemma StepFits(H: Hash, c: Chain, p: Page, pid: Path, w: nat, call: Call, bound: Bound)
    requires ValidCall(call, |call.nibbles|) && Shaped(p, |call.nibbles|)
    requires FitChain(HexString(pid), c, bound) && FitPage(HexString(pid), p, bound)
    requires Num(w, bound) && FitCall(call, bound) && Num(0, bound) && (bound.full ==> WideHash(H))
    ensures var (c', q) := Step(H, c, p, pid, w, call);
            FitChain(HexString(pid), c', bound) && FitPage(HexString(pid), q, bound) && StampedPage(q) &&
            RootFull(q, bound)
  {
    UpdateFits(H, p, pid, w, call, bound);
    LoggedItems(H, p, pid, w, call);
    UpdatePageShape(H, p, pid, w, call);
    var q := UpdatePage(H, p, pid, w, call);
    LoggedFit(q, w, call, bound);
    LogFits(HexString(pid), c, Logged(q, w, call), bound);
    SettleFits(HexString(pid), Log(c, Logged(q, w, call)), w, q, bound);
  }

  lemma {:induction false} StepsFit(H: Hash, c: Chain, p: Page, pid: Path, w: nat, calls: seq<Call>, n: nat,
                                    bound: Bound)
    requires Shaped(p, n) && ValidCalls(calls, n) && FitCalls(calls, bound) && Num(w, bound) && Num(0, bound)
    requires FitChain(HexString(pid), c, bound) && FitPage(HexString(pid), p, bound) && (bound.full ==> WideHash(H))
    ensures var (c', q) := Steps(H, c, p, pid, w, calls, n);
            FitChain(HexString(pid), c', bound) && FitPage(HexString(pid), q, bound)
    decreases |calls|
  {
    if calls != [] {
      StepFits(H, c, p, pid, w, calls[0], bound);
      StepsUnfold(H, c, p, pid, w, calls, n);
      var (c1, p1) := Step(H, c, p, pid, w, calls[0]);
      StepsFit(H, c1, p1, pid, w, calls[1..], n, bound);
    }
  }

  lemma {:induction false} UpdatesFit(H: Hash, p: Page, pid: Path, w: nat, calls: seq<Call>, n: nat, bound: Bound)
    requires Shaped(p, n) && ValidCalls(calls, n) && FitCalls(calls, bound) && Num(w, bound) && Num(0, bound)
    requires FitPage(HexString(pid), p, bound) && (bound.full ==> WideHash(H))
    ensures var q := Updates(H, p, pid, w, calls, n);
            FitPage(HexString(pid), q, bound) && (calls != [] ==> StampedPage(q) && RootFull(q, bound))
    decreases |calls|
  {
    if calls != [] {
      UpdatePageShape(H, p, pid, w, calls[0]);
      UpdateFits(H, p, pid, w, calls[0], bound);
      var q := UpdatePage(H, p, pid, w, calls[0]);
      UpdatesFit(H, q, pid, w, calls[1..], n, bound);
    }
  }

  /** A commit of calls that fit, to a page and a chain that fit, leaves them so. */
  lemma CommitFits(H: Hash, c: Chain, p: Page, pid: Path, w: nat, calls: seq<Call>, n: nat, bound: Bound)
    requires Shaped(p, n) && ValidCalls(calls, n) && calls != [] && FitCalls(calls, bound) && Num(w, bound) &&
             Num(0, bound)
    requires FitChain(HexString(pid), c, bound) && FitPage(HexString(pid), p, bound) && (bound.full ==> WideHash(H))
    ensures var (c', q) := CommitPage(H, c, p, pid, w, calls, n);
            FitChain(HexString(pid), c', bound) && FitPage(HexString(pid), q, bound)
  {
    if Oversize(c, calls) {
      UpdatesFit(H, p, pid, w, calls, n, bound);
      if c.active.count != 0 { FreezeFits(HexString(pid), c, w, bound); }
      var c1 := if c.active.count != 0 then Freeze(c, w) else c;
      CheckpointFits(HexString(pid), c1.(cur := w), w, Updates(H, p, pid, w, calls, n), bound);
    } else {
      StepsFit(H, c, p, pid, w, calls, n, bound);
    }
  }

  /* ---- Loading ---- */

  lemma ItemFits(p: Page, pid: Bytes, it: Item, bound: Bound)
    requires FitPage(pid, p, bound) && FitItem(it, bound) && Num(0, bound)
    ensures FitPage(pid, UpdateDeltaItem(p, it), bound)
  {
    ReplayKeepsShort(p, pid, it);
  }

  lemma {:induction false} ApplyFits(pid: Bytes, p: Page, items: seq<Item>, v: nat, bound: Bound)
    requires FitPage(pid, p, bound) && FitItems(items, bound) && Num(0, bound)
    ensures FitPage(pid, ApplyDelta(p, items, v), bound)
    decreases |items|
  {
    if items != [] && items[0].version <= v {
      ItemFits(p, pid, items[0], bound);
      ApplyFits(pid, UpdateDeltaItem(p, items[0]), items[1..], v, bound);
    }
  }

  ghost predicate FitDeltas(ds: seq<DeltaPage>, bound: Bound) {
    forall i :: 0 <= i < |ds| ==> FitDelta(ds[i], bound)
  }

  lemma {:induction false} ReplayFits(pid: Bytes, p: Page, ds: seq<DeltaPage>, v: nat, bound: Bound)
    requires FitPage(pid, p, bound) && FitDeltas(ds, bound) && Num(0, bound)
    ensures FitPage(pid, ReplayDeltas(p, ds, v), bound)
    decreases |ds|
  {
    if ds != [] {
      ApplyFits(pid, p, ds[0].items, v, bound);
      ReplayFits(pid, ApplyDelta(p, ds[0].items, v), ds[1..], v, bound);
    }
  }

  lemma {:induction false} WalkFits(pid: Bytes, stored: map<Key, Stored>, k: Key, bound: Bound)
    requires forall x :: x in stored ==> FitStored(pid, stored[x], bound)
    ensures FitDeltas(Walk(stored, k).0, bound)
    decreases stored.Keys
  {
    if k.delta {
      match PageLookup(stored, k)
      case Some(Delta(d)) =>
        assert k in stored && k !in stored - {k};
        WalkFits(pid, stored - {k}, d.last, bound);
      case _ =>
    }
  }

  /** What LoadPage rebuilds fits as well. */
  lemma LoadFits(pid: Bytes, c: Chain, current: nat, v: nat, bound: Bound)
    requires FitChain(pid, c, bound) && LoadPage(c, current, v).Found? && Num(0, bound)
    ensures FitPage(pid, LoadPage(c, current, v).p, bound)
  {
    var (sentinel, k) := Start(c, current, v);
    var (ds, b) := Walk(c.stored, k);
    WalkFits(pid, c.stored, k, bound);
    var base := if b.version == 0 then EMPTY_PAGE
                else match PageLookup(c.stored, b) case Some(Base(p)) => p case _ => EMPTY_PAGE;
    assert FitDeltas(sentinel, bound);
    ReplayFits(pid, base, ds + sentinel + [c.active], v, bound);
  }
}
