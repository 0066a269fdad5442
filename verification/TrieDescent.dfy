/** The descent of Get and GetProof one page at a time, with whatever the cache drops
    between the pages. */
module TrieDescent {
  import opened Types
  import opened Pages
  import opened Chains
  import opened ValueLog
  import opened History
  import opened PageSpecs
  import opened TrieState
  import opened TrieInvariant
  import opened TrieRuns
  import opened TrieReads
  import opened TrieTheorems
  import opened TrieLoop

  /** The state with some cached pages dropped. */
  function Dropped(s: State, gone: set<CacheKey>): State {
    s.(cache := s.cache - gone)
  }

  /** What GetPage answers and leaves: the page read is cached, and gone is not. */
  ghost predicate PageRead(s: State, s': State, v: nat, pid: Path, r: Loaded, gone: set<CacheKey>) {
    r == GetPage(s, v, pid).0 && s' == Dropped(GetPage(s, v, pid).1, gone) && CacheKey(v, pid) !in gone
  }

  /** What one page of the path leads to: the end of the descent, or the next page. */
  datatype Next = Stop(d: Descent) | Go(version: nat, leaf: Option<Node>, proofs: seq<NodeProof>)

  function StepPage(k: Path, i: nat, version: nat, leaf: Option<Node>, proofs: seq<NodeProof>, p: Page): Next
    requires i <= |k|
  {
    if p.root.None? then Stop(Absent(proofs))
    else if p.root.value.Leaf? then Go(version, p.root, proofs)
    else if i == |k| then Stop(Threw)
    else if k[i] !in p.kids then Stop(Absent(proofs))
    else
      var kid, proofs1 := p.kids[k[i]], proofs + [ProofOf(p.root.value, i, k[i])];
      if kid.Leaf? then Go(version, Some(kid), proofs1)
      else if i + 1 == |k| then Stop(Threw)
      else Go(SlotVersion(kid.slots, k[i + 1]), leaf, proofs1 + [ProofOf(kid, i + 1, k[i + 1])])
  }

  /** The same once GetPage has answered. */
  function LoadedStep(k: Path, i: nat, version: nat, leaf: Option<Node>, proofs: seq<NodeProof>, r: Loaded): Next
    requires i <= |k|
  {
    match r
    case Fault => Stop(Threw)
    case Missing => Stop(Absent(proofs))
    case Found(p) => StepPage(k, i, version, leaf, proofs, p)
  }

  /** The end of the loop. */
  function End(leaf: Option<Node>, proofs: seq<NodeProof>): Descent {
    if leaf.Some? && leaf.value.Leaf? then Reached(leaf.value, proofs) else Threw
  }

  lemma DescendEnds(s: State, version: nat, k: Path, i: nat, leaf: Option<Node>, proofs: seq<NodeProof>)
    requires i > |k|
    ensures Descend(s, version, k, i, leaf, proofs) == (End(leaf, proofs), s)
  {
  }

  /** Where the descent of k stands before nibble i. */
  ghost predicate OnPath(H: Hash, L: nat, h0: seq<Commit>, log: Log, k: Path, i: nat, version: nat,
                         leaf: Option<Node>, proofs: seq<NodeProof>) {
    |k| == L && i % 2 == 0 &&
    if i <= L then version == LastTouch(h0, k[..i]) && |proofs| == i && AllGood(H, L, Contents(h0), proofs, k, Lossless)
    else Right(H, L, End(leaf, proofs), Contents(h0), log, k, Lossless)
  }

  ghost predicate NextOK(H: Hash, L: nat, h0: seq<Commit>, log: Log, k: Path, i: nat, next: Next) {
    match next
    case Stop(d) => Right(H, L, d, Contents(h0), log, k, Lossless)
    case Go(version, leaf, proofs) => OnPath(H, L, h0, log, k, i + 2, version, leaf, proofs)
  }

  lemma InnerStep(k: Path, i: nat, version: nat, leaf: Option<Node>, proofs: seq<NodeProof>, p: Page)
    requires i + 2 <= |k| && p.root.Some? && p.root.value.Index? && k[i] in p.kids && p.kids[k[i]].Index?
    ensures StepPage(k, i, version, leaf, proofs, p) ==
            Go(SlotVersion(p.kids[k[i]].slots, k[i + 1]), leaf,
               proofs + [ProofOf(p.root.value, i, k[i])] + [ProofOf(p.kids[k[i]], i + 1, k[i + 1])])
  {
  }

  /** The two proof nodes of an inner page. */
  lemma InnerGood(H: Hash, L: nat, h0: seq<Commit>, log: Log, k: Path, i: nat, p: Page)
    returns (a: NodeProof, b: NodeProof)
    requires |k| == L && i % 2 == 0 && i + 2 <= L && ValidHistory(h0, L)
    requires PageSpec(H, L, h0, log, k[..i], p, Lossless) && k[i] in p.kids
    ensures p.root.Some? && p.root.value.Index? && p.kids[k[i]].Index?
    ensures a == ProofOf(p.root.value, i, k[i]) && b == ProofOf(p.kids[k[i]], i + 1, k[i + 1])
    ensures Good(H, L, Contents(h0), a, k, i, Lossless) && Good(H, L, Contents(h0), b, k, i + 1, Lossless)
  {
    RootNodeGood(H, L, h0, log, k, i, p, Lossless);
    KidNodeGood(H, L, h0, log, k, i, p, Lossless);
    a, b := ProofOf(p.root.value, i, k[i]), ProofOf(p.kids[k[i]], i + 1, k[i + 1]);
  }

  lemma AppendTwo(H: Hash, L: nat, m: map<Path, Bytes>, proofs: seq<NodeProof>, a: NodeProof, b: NodeProof, k: Path)
    requires AllGood(H, L, m, proofs, k, Lossless) && Good(H, L, m, a, k, |proofs|, Lossless) &&
             Good(H, L, m, b, k, |proofs| + 1, Lossless)
    ensures AllGood(H, L, m, proofs + [a] + [b], k, Lossless)
  {
    GoodAppend(H, L, m, proofs, a, k, Lossless);
    GoodAppend(H, L, m, proofs + [a], b, k, Lossless);
  }

  lemma InnerNext(H: Hash, L: nat, s: State, h0: seq<Commit>, k: Path, i: nat, version: nat, leaf: Option<Node>,
                  proofs: seq<NodeProof>, p: Page)
    requires OnPath(H, L, h0, s.log, k, i, version, leaf, proofs) && ValidHistory(h0, L)
    requires i + 2 <= L && PageSpec(H, L, h0, s.log, k[..i], p, Lossless) && k[i] in p.kids
    ensures NextOK(H, L, h0, s.log, k, i, StepPage(k, i, version, leaf, proofs, p))
  {
    var a, b := InnerGood(H, L, h0, s.log, k, i, p);
    AppendTwo(H, L, Contents(h0), proofs, a, b, k);
    InnerStep(k, i, version, leaf, proofs, p);
    KidSlotVersion(H, L, h0, s.log, k, i, p, Lossless);
  }

  lemma LastNext(H: Hash, L: nat, s: State, h0: seq<Commit>, k: Path, i: nat, version: nat, leaf: Option<Node>,
                 proofs: seq<NodeProof>, p: Page)
    requires OnPath(H, L, h0, s.log, k, i, version, leaf, proofs) && ValidHistory(h0, L)
    requires i <= L && PageSpec(H, L, h0, s.log, k[..i], p, Lossless) && (i < L && k[i] in p.kids ==> i + 1 == L)
    ensures NextOK(H, L, h0, s.log, k, i, StepPage(k, i, version, leaf, proofs, p))
  {
    VisitLast(H, L, s, h0, version, k, i, leaf, proofs, p, Lossless);
    match StepPage(k, i, version, leaf, proofs, p)
    case Stop(_) =>
    case Go(v', leaf', proofs') => DescendEnds(s, v', k, i + 2, leaf', proofs');
  }

  /** From a page that is as specified the descent goes on as it should. */
  lemma SpecifiedNext(H: Hash, L: nat, s: State, h0: seq<Commit>, k: Path, i: nat, version: nat, leaf: Option<Node>,
                      proofs: seq<NodeProof>, p: Page)
    requires OnPath(H, L, h0, s.log, k, i, version, leaf, proofs) && ValidHistory(h0, L)
    requires i <= L && PageSpec(H, L, h0, s.log, k[..i], p, Lossless)
    ensures NextOK(H, L, h0, s.log, k, i, StepPage(k, i, version, leaf, proofs, p))
  {
    if i + 2 <= L && k[i] in p.kids {
      InnerNext(H, L, s, h0, k, i, version, leaf, proofs, p);
    } else {
      LastNext(H, L, s, h0, k, i, version, leaf, proofs, p);
    }
  }

  /* ---- Reading in a sound state ---- */

  lemma LoadableAt(H: Hash, L: nat, s: State, h: seq<Commit>, pid: Path)
    requires Sound(H, L, s, h) && PageId(L, pid)
    ensures Loadable(ChainOf(s, pid))
  {
    SoundIs(H, L, s, h);
    var g: Snaps :| TrieInv(H, L, s, g, h, Lossless);
    assert PageInv(H, L, s, g, h, pid, Lossless);
  }

  lemma SoundRead(H: Hash, L: nat, s: State, h: seq<Commit>, v: nat, pid: Path)
    requires Sound(H, L, s, h) && PageId(L, pid)
    ensures Sound(H, L, GetPage(s, v, pid).1, h)
  {
    SoundIs(H, L, s, h);
    var g: Snaps :| TrieInv(H, L, s, g, h, Lossless);
    GetPageKeeps(H, L, s, g, h, v, pid, Lossless);
    SoundIs(H, L, GetPage(s, v, pid).1, h);
  }

  lemma SoundEvict(H: Hash, L: nat, s: State, h: seq<Commit>, gone: set<CacheKey>)
    requires Sound(H, L, s, h)
    ensures Sound(H, L, Dropped(s, gone), h)
  {
    SoundIs(H, L, s, h);
    var g: Snaps :| TrieInv(H, L, s, g, h, Lossless);
    EvictKeepsTrie(H, L, s, g, h, gone, Lossless);
    SoundIs(H, L, Dropped(s, gone), h);
  }

  /** Reading a page, and dropping others from the cache, keeps the state sound. */
  lemma ReadKeeps(H: Hash, L: nat, s: State, s': State, h: seq<Commit>, v: nat, pid: Path, r: Loaded,
                  gone: set<CacheKey>)
    requires Sound(H, L, s, h) && PageId(L, pid) && PageRead(s, s', v, pid, r, gone)
    ensures Sound(H, L, s', h) && s'.chains == s.chains && s'.log == s.log && s'.put == s.put && s'.current == s.current
  {
    SoundRead(H, L, s, h, v, pid);
    SoundEvict(H, L, GetPage(s, v, pid).1, h, gone);
  }

  lemma ReadCaches(L: nat, s: State, s': State, v: nat, pid: Path, r: Loaded, gone: set<CacheKey>)
    requires CachedPages(L, s) && PageId(L, pid) && PageRead(s, s', v, pid, r, gone)
    ensures CachedPages(L, s')
  {
    GetPageCaches(s, v, pid);
  }

  /** The page found on the path, and where it leads. */
  lemma ReadNext(H: Hash, L: nat, s: State, s': State, h: seq<Commit>, v: nat, k: Path, i: nat, version: nat,
                 leaf: Option<Node>, proofs: seq<NodeProof>, r: Loaded, gone: set<CacheKey>)
    requires Sound(H, L, s, h) && PathRecoverable(s, h, v, k) && i <= L
    requires OnPath(H, L, Upto(h, v), s.log, k, i, version, leaf, proofs) && PageRead(s, s', version, k[..i], r, gone)
    ensures r.Found? && NextOK(H, L, Upto(h, v), s.log, k, i, StepPage(k, i, version, leaf, proofs, r.p))
  {
    SoundIs(H, L, s, h);
    var g: Snaps :| TrieInv(H, L, s, g, h, Lossless);
    PathStep(H, L, s, g, h, v, k, i, Lossless);
    UptoPrefix(h, v, L);
    if version > 0 {
      SpecifiedNext(H, L, s, Upto(h, v), k, i, version, leaf, proofs, r.p);
    } else {
      NothingBelow(Contents(Upto(h, v)), k, i);
    }
  }

  lemma BeginPath(H: Hash, L: nat, s: State, h: seq<Commit>, v: nat, k: Path)
    requires Sound(H, L, s, h) && Committed(h, v) && |k| == L
    ensures OnPath(H, L, Upto(h, v), s.log, k, 0, v, None, [])
  {
    SoundIs(H, L, s, h);
    var g: Snaps :| TrieInv(H, L, s, g, h, Lossless);
    RootTouched(h, L, v);
    assert k[..0] == [];
  }

  lemma KeepPath(s: State, s': State, h: seq<Commit>, v: nat, k: Path)
    requires s'.chains == s.chains && PathRecoverable(s, h, v, k)
    ensures PathRecoverable(s', h, v, k)
  {
    SamePaths(s, s', h, v, k);
  }
}
