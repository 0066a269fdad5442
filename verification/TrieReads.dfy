/** Get, GetProof, GetRootHash and Verify, and what they answer on every reachable state. */
module TrieReads {
  import opened Types
  import opened Pages
  import opened Chains
  import opened Loads
  import opened ValueLog
  import opened History
  import opened PageSpecs
  import opened TrieState
  import opened TrieInvariant
  import opened TrieCommit

  /* ---- The operations ---- */

  datatype NodeProof = NodeProof(level: nat, index: Nibble, bitmap: set<Nibble>, siblings: seq<Bytes>)

  /** How the page-by-page descent ends; Threw stands for an exception or a null dereference. */
  datatype Descent = Absent(proofs: seq<NodeProof>) | Reached(leaf: Node, proofs: seq<NodeProof>) | Threw

  function ProofOf(n: Node, level: nat, index: Nibble): NodeProof
    requires n.Index?
  {
    NodeProof(level, index, n.slots.Keys, SlotHashes(n.slots))
  }

  /** The loop shared by Get and GetProof, from nibble i at page version v on. */
  function Descend(s: State, v: nat, k: Path, i: nat, leaf: Option<Node>, proofs: seq<NodeProof>): (Descent, State)
    decreases |k| + 2 - i, 1
  {
    if i > |k| then (if leaf.Some? && leaf.value.Leaf? then Reached(leaf.value, proofs) else Threw, s)
    else
      var (l, s1) := GetPage(s, v, k[..i]);
      match l
      case Fault => (Threw, s1)
      case Missing => (Absent(proofs), s1)
      case Found(p) => Visit(s1, v, k, i, leaf, proofs, p)
  }

  /** The body of that loop once the page is at hand. */
  function Visit(s: State, v: nat, k: Path, i: nat, leaf: Option<Node>, proofs: seq<NodeProof>, p: Page):
    (Descent, State)
    requires i <= |k|
    decreases |k| + 2 - i, 0
  {
    if p.root.None? then (Absent(proofs), s)
    else if p.root.value.Leaf? then Descend(s, v, k, i + 2, p.root, proofs)
    else if i == |k| then (Threw, s)
    else if k[i] !in p.kids then (Absent(proofs), s)
    else
      var kid, proofs1 := p.kids[k[i]], proofs + [ProofOf(p.root.value, i, k[i])];
      if kid.Leaf? then Descend(s, v, k, i + 2, Some(kid), proofs1)
      else if i + 1 == |k| then (Threw, s)
      else Descend(s, SlotVersion(kid.slots, k[i + 1]), k, i + 2, leaf, proofs1 + [ProofOf(kid, i + 1, k[i + 1])])
  }

  function LocationOf(n: Node): Location {
    if n.Leaf? then n.loc else NO_LOCATION
  }

  /** Get, with None for an exception. */
  function Get(s: State, v: nat, k: Path): (Option<Bytes>, State) {
    match Descend(s, v, k, 0, None, [])
    case (Absent(_), s') => (Some([]), s')
    case (Reached(leaf, _), s') => (Some(ReadValue(s'.log, LocationOf(leaf))), s')
    case (Threw, s') => (None, s')
  }

  datatype Proof = Proof(value: Bytes, nodes: seq<NodeProof>)

  function Reverse<T>(s: seq<T>): (r: seq<T>)
    ensures |r| == |s| && forall i :: 0 <= i < |s| ==> r[i] == s[|s| - 1 - i]
  {
    if s == [] then [] else Reverse(s[1..]) + [s[0]]
  }

  function GetProof(s: State, v: nat, k: Path): (Option<Proof>, State) {
    match Descend(s, v, k, 0, None, [])
    case (Absent(proofs), s') => (Some(Proof([], proofs)), s')
    case (Reached(leaf, proofs), s') => (Some(Proof(ReadValue(s'.log, LocationOf(leaf)), Reverse(proofs))), s')
    case (Threw, s') => (None, s')
  }

  function GetRootHash(s: State, v: nat): (Option<Bytes>, State) {
    match GetPage(s, v, [])
    case (Found(p), s') => (if p.root.Some? then Some(p.root.value.hash) else None, s')
    case (_, s') => (None, s')
  }

  /** The hash of one proof node with the running hash in its own place. */
  function NodeHash(H: Hash, node: NodeProof, running: Bytes): Bytes
    requires |node.siblings| == FANOUT
  {
    H(Join(node.siblings[node.index := running]))
  }

  function Fold(H: Hash, running: Bytes, nodes: seq<NodeProof>): Bytes
    requires forall x :: 0 <= x < |nodes| ==> |nodes[x].siblings| == FANOUT
    decreases |nodes|
  {
    if nodes == [] then running else Fold(H, NodeHash(H, nodes[0], running), nodes[1..])
  }

  predicate Verify(H: Hash, value: Bytes, rootHash: Bytes, nodes: seq<NodeProof>)
    requires forall x :: 0 <= x < |nodes| ==> |nodes[x].siblings| == FANOUT
  {
    Fold(H, H(value), nodes) == rootHash
  }

  /* ---- The pages on the path of a key ---- */

  lemma {:induction false} UptoUpto(h: seq<Commit>, L: nat, u: nat, v: nat)
    requires ValidHistory(h, L) && u <= v
    ensures Upto(Upto(h, v), u) == Upto(h, u)
    decreases |h|
  {
    if h != [] && Latest(h) > v {
      ValidPrefix(h, L);
      UptoUpto(h[..|h| - 1], L, u, v);
    }
  }

  /** Every page on the path of k, at the version it had as of v, can be rebuilt. */
  ghost predicate PathRecoverable(s: State, h: seq<Commit>, v: nat, k: Path) {
    forall i :: 0 <= i <= |k| && i % 2 == 0 ==> PageRecoverable(s, h, v, k[..i])
  }

  ghost predicate PageRecoverable(s: State, h: seq<Commit>, v: nat, pid: Path) {
    Linked(ChainOf(s, pid).stored) && Recoverable(ChainOf(s, pid), LastTouch(Upto(h, v), pid))
  }

  /** GetPage on the path: the never-touched page, or the page the simple store prescribes. */
  lemma PathPage(H: Hash, L: nat, s: State, g: Snaps, h: seq<Commit>, v: nat, pid: Path, loss: Loss)
    requires PageId(L, pid) && ValidHistory(h, L) && PageInv(H, L, s, g, h, pid, loss)
    requires PageRecoverable(s, h, v, pid)
    ensures var h0 := Upto(h, v);
            var u := LastTouch(h0, pid);
            var l := GetPage(s, u, pid).0;
            l.Found? && if u == 0 then l.p == EMPTY_PAGE else PageSpec(H, L, h0, s.log, pid, l.p, loss)
  {
    var h0 := Upto(h, v);
    var u, snaps := LastTouch(h0, pid), SnapsOf(g, pid);
    UptoPrefix(h, v, L);
    GetPageExact(s, Kind(L, pid), snaps, u, pid, loss);
    TouchIsWritten(h0, pid, L);
    if u == 0 {
      SameEmpty(GetPage(s, u, pid).0.p, loss);
    } else {
      SnapOnPath(H, L, h, s.log, v, pid, snaps, loss);
      var p := GetPage(s, u, pid).0.p;
      SameFlip(p, snaps[u], loss);
      SpecSame(H, L, h0, s.log, pid, snaps[u], p, loss);
    }
  }

  lemma SnapOnPath(H: Hash, L: nat, h: seq<Commit>, log: Log, v: nat, pid: Path, snaps: map<nat, Page>, loss: Loss)
    requires PageId(L, pid) && ValidHistory(h, L) && SnapsOK(H, L, h, log, pid, snaps, loss)
    requires LastTouch(Upto(h, v), pid) > 0
    ensures var u := LastTouch(Upto(h, v), pid);
            u in snaps && PageSpec(H, L, Upto(h, v), log, pid, snaps[u], loss)
  {
    var h0 := Upto(h, v);
    var u := LastTouch(h0, pid);
    UptoPrefix(h, v, L);
    TouchIsWritten(h0, pid, L);
    LastTouchTouched(h0, pid, L);
    UptoUpto(h, L, u, v);
    assert TouchedAt(h, pid, u);
    SpecSince(H, L, h0, log, pid, snaps[u], loss);
  }

  /* ---- The descent ---- */

  /** A proof node names its level and its nibble of the key. */
  predicate Placed(node: NodeProof, k: Path, j: nat) {
    j < |k| && node.level == j && node.index == k[j] && |node.siblings| == FANOUT
  }

  /** Some key below it was written, and its sixteen hashes are those of the simple store's
      Merkle tree. */
  ghost predicate Good(H: Hash, L: nat, m: map<Path, Bytes>, node: NodeProof, k: Path, j: nat, loss: Loss) {
    Placed(node, k, j) && |k| == L && Touches(m, k[..j]) &&
    (loss.Lossless? ==> node.siblings == ChildHashes(H, m, k[..j], L))
  }

  ghost predicate AllGood(H: Hash, L: nat, m: map<Path, Bytes>, nodes: seq<NodeProof>, k: Path, loss: Loss) {
    forall j :: 0 <= j < |nodes| ==> Good(H, L, m, nodes[j], k, j, loss)
  }

  lemma RootNodeGood(H: Hash, L: nat, h: seq<Commit>, log: Log, k: Path, i: nat, p: Page, loss: Loss)
    requires i < L == |k| && i % 2 == 0 && ValidHistory(h, L) && PageSpec(H, L, h, log, k[..i], p, loss)
    requires k[i] in p.kids
    ensures p.root.value.Index? && Good(H, L, Contents(h), ProofOf(p.root.value, i, k[i]), k, i, loss)
  {
    NextNibble(k, i);
    TouchesShorter(Contents(h), k[..i], k[..i + 1]);
    if loss.Lossless? { RootIsMerkle(H, L, h, log, k[..i], p); }
  }

  lemma NextNibble(k: Path, i: nat)
    requires i < |k|
    ensures k[..i] + [k[i]] == k[..i + 1]
  {
  }

  lemma NextNibbles(k: Path, i: nat)
    requires i + 1 < |k|
    ensures k[..i] + [k[i], k[i + 1]] == k[..i + 2]
  {
  }

  lemma KidNodeGood(H: Hash, L: nat, h: seq<Commit>, log: Log, k: Path, i: nat, p: Page, loss: Loss)
    requires i + 2 <= L == |k| && i % 2 == 0 && PageSpec(H, L, h, log, k[..i], p, loss) && k[i] in p.kids
    ensures p.kids[k[i]].Index? && Good(H, L, Contents(h), ProofOf(p.kids[k[i]], i + 1, k[i + 1]), k, i + 1, loss)
  {
    NextNibble(k, i);
    if loss.Lossless? { KidSlotsAreMerkle(H, L, h, log, k[..i], p, k[i]); }
  }

  lemma KidSlotVersion(H: Hash, L: nat, h: seq<Commit>, log: Log, k: Path, i: nat, p: Page, loss: Loss)
    requires i + 2 <= L == |k| && i % 2 == 0 && PageSpec(H, L, h, log, k[..i], p, loss) && k[i] in p.kids
    ensures p.kids[k[i]].Index? && SlotVersion(p.kids[k[i]].slots, k[i + 1]) == LastTouch(h, k[..i + 2])
  {
    NextNibbles(k, i);
    assert SlotSpec(H, L, h, p, k[..i], k[i], k[i + 1], loss);
  }

  /** Nodes come two to a page. With n of them found, nothing below the next one was written. */
  ghost predicate EndsAt(m: map<Path, Bytes>, k: Path, n: nat) {
    n % 2 == 0 && n <= |k| && (n < |k| ==> !Touches(m, k[..n + 1]))
  }

  /** How the descent of a key must end. */
  ghost predicate Right(H: Hash, L: nat, d: Descent, m: map<Path, Bytes>, log: Log, k: Path, loss: Loss) {
    if k in m then
      d.Reached? && LeafSpec(H, log, d.leaf, m[k], loss) && |d.proofs| == L && AllGood(H, L, m, d.proofs, k, loss)
    else d.Absent? && EndsAt(m, k, |d.proofs|) && AllGood(H, L, m, d.proofs, k, loss)
  }

  lemma ChainsKept(s: State, v: nat, pid: Path)
    ensures var s' := GetPage(s, v, pid).1; s'.chains == s.chains && s'.log == s.log && s'.put == s.put
  {
  }

  lemma GoodAppend(H: Hash, L: nat, m: map<Path, Bytes>, nodes: seq<NodeProof>, node: NodeProof, k: Path, loss: Loss)
    requires AllGood(H, L, m, nodes, k, loss) && Good(H, L, m, node, k, |nodes|, loss)
    ensures AllGood(H, L, m, nodes + [node], k, loss)
  {
  }

  ghost predicate Done(H: Hash, L: nat, r: (Descent, State), g: Snaps, h: seq<Commit>, v: nat, log: Log, k: Path,
                       loss: Loss) {
    Right(H, L, r.0, Contents(Upto(h, v)), log, k, loss) && TrieInv(H, L, r.1, g, h, loss) && r.1.log == log
  }

  /** Reading the next page of the path: what is found, and that nothing else changed. */
  lemma PathStep(H: Hash, L: nat, s: State, g: Snaps, h: seq<Commit>, v: nat, k: Path, i: nat, loss: Loss)
    requires TrieInv(H, L, s, g, h, loss) && |k| == L && i <= L && i % 2 == 0 && PathRecoverable(s, h, v, k)
    ensures var u := LastTouch(Upto(h, v), k[..i]);
            var (l, s1) := GetPage(s, u, k[..i]);
            l.Found? && TrieInv(H, L, s1, g, h, loss) && s1.log == s.log && PathRecoverable(s1, h, v, k) &&
            if u == 0 then l.p == EMPTY_PAGE && !Touches(Contents(Upto(h, v)), k[..i])
            else PageSpec(H, L, Upto(h, v), s.log, k[..i], l.p, loss)
  {
    var pid := k[..i];
    var u := LastTouch(Upto(h, v), pid);
    assert PageRecoverable(s, h, v, pid);
    PathPage(H, L, s, g, h, v, pid, loss);
    GetPageKeeps(H, L, s, g, h, u, pid, loss);
    ChainsKept(s, u, pid);
    SamePaths(s, GetPage(s, u, pid).1, h, v, k);
    UptoPrefix(h, v, L);
    TouchIsWritten(Upto(h, v), pid, L);
  }

  lemma NothingBelow(m: map<Path, Bytes>, k: Path, i: nat)
    requires i <= |k| && i % 2 == 0 && !Touches(m, k[..i])
    ensures k !in m && EndsAt(m, k, i)
  {
    assert k[..i] <= k;
    if i < |k| && Touches(m, k[..i + 1]) { TouchesShorter(m, k[..i], k[..i + 1]); }
  }

  /** The descent from any even nibble on ends as the simple store demands. */
  lemma {:induction false} DescendRight(H: Hash, L: nat, s: State, g: Snaps, h: seq<Commit>, v: nat, k: Path, i: nat,
                                        leaf: Option<Node>, proofs: seq<NodeProof>, loss: Loss)
    requires TrieInv(H, L, s, g, h, loss) && |k| == L && i <= L && i % 2 == 0
    requires PathRecoverable(s, h, v, k)
    requires |proofs| == i && AllGood(H, L, Contents(Upto(h, v)), proofs, k, loss)
    ensures Done(H, L, Descend(s, LastTouch(Upto(h, v), k[..i]), k, i, leaf, proofs), g, h, v, s.log, k, loss)
    decreases L - i, 1
  {
    var u := LastTouch(Upto(h, v), k[..i]);
    var (l, s1) := GetPage(s, u, k[..i]);
    PathStep(H, L, s, g, h, v, k, i, loss);
    assert Descend(s, u, k, i, leaf, proofs) == Visit(s1, u, k, i, leaf, proofs, l.p);
    if u == 0 {
      assert Visit(s1, u, k, i, leaf, proofs, l.p) == (Absent(proofs), s1);
      NothingBelow(Contents(Upto(h, v)), k, i);
    } else {
      UptoPrefix(h, v, L);
      VisitRight(H, L, s1, g, h, v, k, i, leaf, proofs, l.p, loss);
    }
  }

  lemma SamePaths(s: State, s': State, h: seq<Commit>, v: nat, k: Path)
    requires s'.chains == s.chains && PathRecoverable(s, h, v, k)
    ensures PathRecoverable(s', h, v, k)
  {
    forall i | 0 <= i <= |k| && i % 2 == 0 ensures PageRecoverable(s', h, v, k[..i]) {
      assert PageRecoverable(s, h, v, k[..i]);
    }
  }

  lemma ChildAbsent(H: Hash, L: nat, s: State, h0: seq<Commit>, u: nat, k: Path, i: nat, leaf: Option<Node>,
                    proofs: seq<NodeProof>, p: Page, loss: Loss)
    requires i < L == |k| && i % 2 == 0 && PageSpec(H, L, h0, s.log, k[..i], p, loss) && k[i] !in p.kids
    requires |proofs| == i && AllGood(H, L, Contents(h0), proofs, k, loss)
    ensures var (d, s') := Visit(s, u, k, i, leaf, proofs, p); s' == s && Right(H, L, d, Contents(h0), s.log, k, loss)
  {
    NextNibble(k, i);
    assert k[..i + 1] <= k;
  }

  lemma LeafKidVisit(s: State, u: nat, k: Path, i: nat, leaf: Option<Node>, proofs: seq<NodeProof>, p: Page)
    requires i + 1 == |k| && p.root.Some? && p.root.value.Index? && k[i] in p.kids && p.kids[k[i]].Leaf?
    ensures Visit(s, u, k, i, leaf, proofs, p) == (Reached(p.kids[k[i]], proofs + [ProofOf(p.root.value, i, k[i])]), s)
  {
  }

  lemma LeafKidRight(H: Hash, L: nat, h0: seq<Commit>, log: Log, k: Path, i: nat, proofs: seq<NodeProof>, p: Page,
                     loss: Loss)
    requires |k| == L == i + 1 && i % 2 == 0 && PageSpec(H, L, h0, log, k[..i], p, loss) && ValidHistory(h0, L)
    requires |proofs| == i && AllGood(H, L, Contents(h0), proofs, k, loss) && k[i] in p.kids
    ensures p.root.value.Index? && p.kids[k[i]].Leaf?
    ensures Right(H, L, Reached(p.kids[k[i]], proofs + [ProofOf(p.root.value, i, k[i])]), Contents(h0), log, k, loss)
  {
    LeafKidValue(H, L, h0, log, k, i, p, loss);
    RootNodeGood(H, L, h0, log, k, i, p, loss);
    GoodAppend(H, L, Contents(h0), proofs, ProofOf(p.root.value, i, k[i]), k, loss);
  }

  lemma LeafKidValue(H: Hash, L: nat, h0: seq<Commit>, log: Log, k: Path, i: nat, p: Page, loss: Loss)
    requires |k| == L == i + 1 && i % 2 == 0 && PageSpec(H, L, h0, log, k[..i], p, loss) && k[i] in p.kids
    ensures k in Contents(h0) && LeafSpec(H, log, p.kids[k[i]], Contents(h0)[k], loss)
  {
    NextNibble(k, i);
    assert k[..i + 1] == k;
  }

  /** The last page of an odd-length key: its children are the leaves. */
  lemma VisitLeafKid(H: Hash, L: nat, s: State, h0: seq<Commit>, u: nat, k: Path, i: nat, leaf: Option<Node>,
                     proofs: seq<NodeProof>, p: Page, loss: Loss)
    requires |k| == L == i + 1 && i % 2 == 0 && PageSpec(H, L, h0, s.log, k[..i], p, loss) && ValidHistory(h0, L)
    requires |proofs| == i && AllGood(H, L, Contents(h0), proofs, k, loss) && k[i] in p.kids
    ensures var (d, s') := Visit(s, u, k, i, leaf, proofs, p); s' == s && Right(H, L, d, Contents(h0), s.log, k, loss)
  {
    LeafKidRight(H, L, h0, s.log, k, i, proofs, p, loss);
    LeafKidVisit(s, u, k, i, leaf, proofs, p);
  }

  /** An inner page hands over to the child page at the version in its slot. */
  lemma VisitInner(H: Hash, L: nat, s: State, h0: seq<Commit>, u: nat, k: Path, i: nat, leaf: Option<Node>,
                   proofs: seq<NodeProof>, p: Page, loss: Loss)
    returns (proofs': seq<NodeProof>)
    requires i + 2 <= L == |k| && i % 2 == 0 && PageSpec(H, L, h0, s.log, k[..i], p, loss) && ValidHistory(h0, L)
    requires |proofs| == i && AllGood(H, L, Contents(h0), proofs, k, loss) && k[i] in p.kids
    ensures |proofs'| == i + 2 && AllGood(H, L, Contents(h0), proofs', k, loss)
    ensures Visit(s, u, k, i, leaf, proofs, p) == Descend(s, LastTouch(h0, k[..i + 2]), k, i + 2, leaf, proofs')
  {
    var kid, proofs1 := p.kids[k[i]], proofs + [ProofOf(p.root.value, i, k[i])];
    RootNodeGood(H, L, h0, s.log, k, i, p, loss);
    GoodAppend(H, L, Contents(h0), proofs, ProofOf(p.root.value, i, k[i]), k, loss);
    KidNodeGood(H, L, h0, s.log, k, i, p, loss);
    KidSlotVersion(H, L, h0, s.log, k, i, p, loss);
    proofs' := proofs1 + [ProofOf(kid, i + 1, k[i + 1])];
    GoodAppend(H, L, Contents(h0), proofs1, ProofOf(kid, i + 1, k[i + 1]), k, loss);
  }

  /** The pages at which the descent stops. */
  lemma VisitLast(H: Hash, L: nat, s: State, h0: seq<Commit>, u: nat, k: Path, i: nat, leaf: Option<Node>,
                  proofs: seq<NodeProof>, p: Page, loss: Loss)
    requires |k| == L && i <= L && i % 2 == 0 && ValidHistory(h0, L)
    requires |proofs| == i && AllGood(H, L, Contents(h0), proofs, k, loss)
    requires PageSpec(H, L, h0, s.log, k[..i], p, loss)
    requires i < L && k[i] in p.kids ==> i + 1 == L
    ensures var (d, s') := Visit(s, u, k, i, leaf, proofs, p); s' == s && Right(H, L, d, Contents(h0), s.log, k, loss)
  {
    if i == L {
      assert k[..i] == k;
    } else if k[i] !in p.kids {
      ChildAbsent(H, L, s, h0, u, k, i, leaf, proofs, p, loss);
    } else {
      VisitLeafKid(H, L, s, h0, u, k, i, leaf, proofs, p, loss);
    }
  }

  /** One page further, from a page that is as prescribed. */
  lemma {:induction false} VisitRight(H: Hash, L: nat, s: State, g: Snaps, h: seq<Commit>, v: nat, k: Path, i: nat,
                                      leaf: Option<Node>, proofs: seq<NodeProof>, p: Page, loss: Loss)
    requires TrieInv(H, L, s, g, h, loss) && |k| == L && i <= L && i % 2 == 0
    requires PathRecoverable(s, h, v, k) && ValidHistory(Upto(h, v), L)
    requires |proofs| == i && AllGood(H, L, Contents(Upto(h, v)), proofs, k, loss)
    requires PageSpec(H, L, Upto(h, v), s.log, k[..i], p, loss)
    ensures Done(H, L, Visit(s, LastTouch(Upto(h, v), k[..i]), k, i, leaf, proofs, p), g, h, v, s.log, k, loss)
    decreases L - i, 0
  {
    var u := LastTouch(Upto(h, v), k[..i]);
    if i + 2 <= L && k[i] in p.kids {
      var proofs' := VisitInner(H, L, s, Upto(h, v), u, k, i, leaf, proofs, p, loss);
      DescendRight(H, L, s, g, h, v, k, i + 2, leaf, proofs', loss);
    } else {
      VisitLast(H, L, s, Upto(h, v), u, k, i, leaf, proofs, p, loss);
    }
  }
}
