/** The main results, for every run: what Get, GetRootHash, GetProof and Verify answer. */
module TrieTheorems {
  import opened Types
  import opened Pages
  import opened Chains
  import opened Loads
  import opened ValueLog
  import opened History
  import opened PageSpecs
  import opened TrieState
  import opened TrieInvariant
  import opened TrieRuns
  import opened TrieReads

  ghost predicate Committed(h: seq<Commit>, v: nat) {
    exists i :: 0 <= i < |h| && h[i].version == v
  }

  /** Every commit touches the root page. */
  lemma {:induction false} RootTouched(h: seq<Commit>, L: nat, v: nat)
    requires ValidHistory(h, L) && Committed(h, v)
    ensures LastTouch(Upto(h, v), []) == v
    decreases |h|
  {
    var last := h[|h| - 1];
    if last.version <= v {
      var i :| 0 <= i < |h| && h[i].version == v;
      assert i == |h| - 1;
      var k :| k in last.batch;
      assert Touches(last.batch, []) by { assert [] <= k; }
    } else {
      ValidPrefix(h, L);
      var i :| 0 <= i < |h| && h[i].version == v;
      assert h[..|h| - 1][i].version == v;
      RootTouched(h[..|h| - 1], L, v);
    }
  }

  lemma DescendFromRoot(H: Hash, L: nat, s: State, h: seq<Commit>, v: nat, k: Path, loss: Loss)
    requires Agrees(H, L, s, h, loss) && Committed(h, v) && |k| == L && PathRecoverable(s, h, v, k)
    ensures var (d, s') := Descend(s, v, k, 0, None, []);
            Right(H, L, d, Contents(Upto(h, v)), s.log, k, loss) && Agrees(H, L, s', h, loss) && s'.log == s.log
  {
    var g: Snaps :| TrieInv(H, L, s, g, h, loss);
    RootTouched(h, L, v);
    assert k[..0] == [];
    DescendRight(H, L, s, g, h, v, k, 0, None, [], loss);
  }

  /** Get at a committed version answers the last value written to the key in commits up to
      that version, up to its first newline; "" if it was never written or last deleted. */
  lemma GetIsValue(H: Hash, L: nat, s: State, h: seq<Commit>, v: nat, k: Path, loss: Loss)
    requires Agrees(H, L, s, h, loss) && Committed(h, v) && |k| == L && PathRecoverable(s, h, v, k)
    ensures Get(s, v, k).0 == Some(FirstLine(Value(Upto(h, v), k)))
    ensures Agrees(H, L, Get(s, v, k).1, h, loss)
  {
    DescendFromRoot(H, L, s, h, v, k, loss);
  }

  /** The newest version is always recoverable. */
  lemma NewestRecoverable(H: Hash, L: nat, s: State, h: seq<Commit>, v: nat, k: Path, loss: Loss)
    requires Agrees(H, L, s, h, loss) && |k| == L && h != [] && v == Latest(h)
    ensures Committed(h, v) && PathRecoverable(s, h, v, k)
  {
    var g: Snaps :| TrieInv(H, L, s, g, h, loss);
    assert Latest(h) == v;
    UptoAll(h, v);
    forall i | 0 <= i <= |k| && i % 2 == 0 ensures PageRecoverable(s, h, v, k[..i]) {
      assert PageInv(H, L, s, g, h, k[..i], loss);
    }
  }

  lemma GetNewestAgreed(H: Hash, L: nat, s: State, h: seq<Commit>, k: Path, loss: Loss)
    requires Agrees(H, L, s, h, loss) && |k| == L && h != []
    ensures Get(s, Latest(h), k).0 == Some(FirstLine(Value(h, k)))
  {
    var v := Latest(h);
    NewestRecoverable(H, L, s, h, v, k, loss);
    UptoAll(h, v);
    GetIsValue(H, L, s, h, v, k, loss);
  }

  lemma RunReaches(H: Hash, L: nat, ops: seq<Op>, loss: Loss) returns (s: State, h: seq<Commit>)
    requires IsRun(H, L, ops, loss)
    ensures s == StateAfter(H, L, ops) && h == HistoryAfter(H, L, ops) && Agrees(H, L, s, h, loss)
  {
    s, h := StateAfter(H, L, ops), HistoryAfter(H, L, ops);
    RunAgrees(H, L, ops, loss);
  }

  /** So reads of the newest version need no hypothesis at all. */
  lemma GetNewest(H: Hash, L: nat, ops: seq<Op>, k: Path, loss: Loss) returns (s: State, h: seq<Commit>)
    requires IsRun(H, L, ops, loss) && |k| == L && HistoryAfter(H, L, ops) != []
    ensures s == StateAfter(H, L, ops) && h == HistoryAfter(H, L, ops) && h != []
    ensures Get(s, Latest(h), k).0 == Some(FirstLine(Value(h, k)))
  {
    s, h := RunReaches(H, L, ops, loss);
    GetNewestAgreed(H, L, s, h, k, loss);
  }

  /* ---- The root hash ---- */

  lemma RootPage(H: Hash, L: nat, s: State, h: seq<Commit>, v: nat, loss: Loss) returns (p: Page)
    requires Agrees(H, L, s, h, loss) && Committed(h, v) && PageRecoverable(s, h, v, [])
    ensures GetPage(s, v, []).0 == Found(p) && ValidHistory(h, L) && PageSpec(H, L, Upto(h, v), s.log, [], p, loss)
  {
    var g: Snaps :| TrieInv(H, L, s, g, h, loss);
    RootTouched(h, L, v);
    assert PageInv(H, L, s, g, h, [], loss);
    PathPage(H, L, s, g, h, v, [], loss);
    p := GetPage(s, v, []).0.p;
  }

  /** The root hash at a committed version is the Merkle hash of the keys ever written and
      their values then, even if pages read from files had lost slots of their roots, as long
      as each commit reached the children whose slots were lost. */
  lemma RootHashIsMerkle(H: Hash, L: nat, s: State, h: seq<Commit>, v: nat, loss: Loss)
    requires Agrees(H, L, s, h, loss) && !loss.Hashless? && Committed(h, v) && PageRecoverable(s, h, v, [])
    ensures GetRootHash(s, v).0 == Some(Merkle(H, Contents(Upto(h, v)), [], L))
  {
    var p := RootPage(H, L, s, h, v, loss);
    UptoPrefix(h, v, L);
    RootHashIs(H, L, Upto(h, v), s.log, [], p, loss);
  }

  /** Two runs that end with the same contents have the same newest root hash, however
      their writes were ordered and batched, cached, evicted, frozen or checkpointed, and
      whichever root slots were lost in files and set again. */
  lemma SameContentsSameHash(H: Hash, L: nat, ops: seq<Op>, ops': seq<Op>, loss: Loss)
    requires IsRun(H, L, ops, loss) && IsRun(H, L, ops', loss) && !loss.Hashless?
    requires HistoryAfter(H, L, ops) != [] && HistoryAfter(H, L, ops') != []
    requires Contents(HistoryAfter(H, L, ops)) == Contents(HistoryAfter(H, L, ops'))
    ensures var h, h' := HistoryAfter(H, L, ops), HistoryAfter(H, L, ops');
            GetRootHash(StateAfter(H, L, ops), Latest(h)).0 ==
            GetRootHash(StateAfter(H, L, ops'), Latest(h')).0
  {
    NewestRootHash(H, L, ops, loss);
    NewestRootHash(H, L, ops', loss);
  }

  lemma NewestRootHash(H: Hash, L: nat, ops: seq<Op>, loss: Loss)
    requires IsRun(H, L, ops, loss) && !loss.Hashless? && HistoryAfter(H, L, ops) != []
    ensures var s, h := StateAfter(H, L, ops), HistoryAfter(H, L, ops);
            GetRootHash(s, Latest(h)).0 == Some(Merkle(H, Contents(h), [], L))
  {
    var s, h := StateAfter(H, L, ops), HistoryAfter(H, L, ops);
    var v := Latest(h);
    RunAgrees(H, L, ops, loss);
    var k: Path := seq(L, i => 0);
    NewestRecoverable(H, L, s, h, v, k, loss);
    assert PageRecoverable(s, h, v, k[..0]) && k[..0] == [];
    UptoAll(h, v);
    RootHashIsMerkle(H, L, s, h, v, loss);
  }

  /* ---- Proofs ---- */

  lemma ReverseSnoc<T>(s: seq<T>, x: T)
    ensures Reverse(s + [x]) == [x] + Reverse(s)
  {
    var a, b := Reverse(s + [x]), [x] + Reverse(s);
    forall i | 0 <= i < |a| ensures a[i] == b[i] {
    }
  }

  lemma OwnHash(H: Hash, L: nat, m: map<Path, Bytes>, k: Path, j: nat)
    requires j < L == |k| && k in m
    ensures ChildHashes(H, m, k[..j], L)[k[j]] == Merkle(H, m, k[..j + 1], L)
  {
    NextNibble(k, j);
    assert Touches(m, k[..j + 1]) by { assert k[..j + 1] <= k; }
  }

  lemma UpdateSame<T>(s: seq<T>, i: nat, x: T)
    requires i < |s| && s[i] == x
    ensures s[i := x] == s
  {
  }

  /** Hashing a node of the Merkle tree with its child's own hash gives the node's hash. */
  lemma GoodNodeHash(H: Hash, L: nat, m: map<Path, Bytes>, node: NodeProof, k: Path, j: nat)
    requires Good(H, L, m, node, k, j, Lossless) && k in m
    ensures NodeHash(H, node, Merkle(H, m, k[..j + 1], L)) == Merkle(H, m, k[..j], L)
  {
    OwnHash(H, L, m, k, j);
    UpdateSame(node.siblings, k[j], Merkle(H, m, k[..j + 1], L));
  }

  lemma InitLast<T>(s: seq<T>)
    requires s != []
    ensures s == s[..|s| - 1] + [s[|s| - 1]]
  {
  }

  lemma FoldLast(H: Hash, running: Bytes, init: seq<NodeProof>, last: NodeProof)
    requires |last.siblings| == FANOUT
    requires forall x :: 0 <= x < |init| ==> |Reverse(init)[x].siblings| == FANOUT
    ensures forall x :: 0 <= x < |init + [last]| ==> |Reverse(init + [last])[x].siblings| == FANOUT
    ensures Fold(H, running, Reverse(init + [last])) == Fold(H, NodeHash(H, last, running), Reverse(init))
  {
    ReverseSnoc(init, last);
  }

  lemma GoodLast(H: Hash, L: nat, m: map<Path, Bytes>, init: seq<NodeProof>, last: NodeProof, nodes: seq<NodeProof>,
                 k: Path)
    requires nodes == init + [last] && |nodes| <= L == |k| && AllGood(H, L, m, nodes, k, Lossless) && k in m
    ensures |last.siblings| == FANOUT
    ensures NodeHash(H, last, Merkle(H, m, k[..|nodes|], L)) == Merkle(H, m, k[..|init|], L)
  {
    assert nodes[|init|] == last;
    GoodNodeHash(H, L, m, last, k, |init|);
  }

  lemma {:induction false} FoldToRoot(H: Hash, L: nat, m: map<Path, Bytes>, nodes: seq<NodeProof>, k: Path)
    requires |nodes| <= L == |k| && AllGood(H, L, m, nodes, k, Lossless) && k in m
    ensures forall x :: 0 <= x < |nodes| ==> |Reverse(nodes)[x].siblings| == FANOUT
    ensures Fold(H, Merkle(H, m, k[..|nodes|], L), Reverse(nodes)) == Merkle(H, m, [], L)
    decreases |nodes|
  {
    if nodes == [] {
      assert k[..0] == [];
    } else {
      var n := |nodes| - 1;
      var init, last := nodes[..n], nodes[n];
      InitLast(nodes);
      FoldToRoot(H, L, m, init, k);
      GoodLast(H, L, m, init, last, nodes, k);
      FoldLast(H, Merkle(H, m, k[..n + 1], L), init, last);
    }
  }

  /** Proofs are complete: the proof of a live key at a committed version has one node for
      each nibble, last nibble first, and Verify accepts it with the key's value against
      the root hash of that version. */
  lemma ProofComplete(H: Hash, L: nat, s: State, h: seq<Commit>, v: nat, k: Path)
    requires Agrees(H, L, s, h, Lossless) && Committed(h, v) && |k| == L && PathRecoverable(s, h, v, k)
    requires Value(Upto(h, v), k) != []
    ensures var proof := GetProof(s, v, k).0;
            proof.Some? && |proof.value.nodes| == L &&
            proof.value.value == FirstLine(Value(Upto(h, v), k)) &&
            (forall x :: 0 <= x < L ==> Placed(proof.value.nodes[x], k, L - 1 - x)) &&
            GetRootHash(s, v).0.Some? &&
            Verify(H, Value(Upto(h, v), k), GetRootHash(s, v).0.value, proof.value.nodes)
  {
    var m := Contents(Upto(h, v));
    DescendFromRoot(H, L, s, h, v, k, Lossless);
    var d := Descend(s, v, k, 0, None, []).0;
    FoldToRoot(H, L, m, d.proofs, k);
    assert k[..L] == k;
    assert PageRecoverable(s, h, v, k[..0]) && k[..0] == [];
    RootHashIsMerkle(H, L, s, h, v, Lossless);
    ReverseGood(H, L, m, d.proofs, k, Lossless);
  }

  /** What a proof of k must hold: the value, and the nodes of the Merkle tree on the path of
      k, all of them from the leaf's side up if k was ever written, and else those there are
      from the root down. */
  ghost predicate ProofHolds(H: Hash, L: nat, m: map<Path, Bytes>, k: Path, proof: Proof, loss: Loss) {
    if k in m then
      proof.value == FirstLine(m[k]) && |proof.nodes| == L &&
      forall x :: 0 <= x < L ==> Good(H, L, m, proof.nodes[x], k, L - 1 - x, loss)
    else
      proof.value == [] && EndsAt(m, k, |proof.nodes|) && AllGood(H, L, m, proof.nodes, k, loss)
  }

  /** The proof of any key at a committed version: of a live one, a deleted one, or one never
      written, which gets the empty value. */
  lemma ProofOfAny(H: Hash, L: nat, s: State, h: seq<Commit>, v: nat, k: Path, loss: Loss)
    requires Agrees(H, L, s, h, loss) && Committed(h, v) && |k| == L && PathRecoverable(s, h, v, k)
    ensures var proof := GetProof(s, v, k).0;
            proof.Some? && ProofHolds(H, L, Contents(Upto(h, v)), k, proof.value, loss)
  {
    DescendFromRoot(H, L, s, h, v, k, loss);
    RightHolds(H, L, Contents(Upto(h, v)), Descend(s, v, k, 0, None, []).0, s.log, k, loss);
  }

  lemma RightHolds(H: Hash, L: nat, m: map<Path, Bytes>, d: Descent, log: Log, k: Path, loss: Loss)
    requires Right(H, L, d, m, log, k, loss)
    ensures d.Reached? ==>
              ProofHolds(H, L, m, k, Proof(ReadValue(log, LocationOf(d.leaf)), Reverse(d.proofs)), loss)
    ensures d.Absent? ==> ProofHolds(H, L, m, k, Proof([], d.proofs), loss)
    ensures !d.Threw?
  {
    if d.Reached? { ReverseGood(H, L, m, d.proofs, k, loss); }
  }

  lemma ReverseGood(H: Hash, L: nat, m: map<Path, Bytes>, nodes: seq<NodeProof>, k: Path, loss: Loss)
    requires |nodes| == L && AllGood(H, L, m, nodes, k, loss)
    ensures forall x :: 0 <= x < L ==> Good(H, L, m, Reverse(nodes)[x], k, L - 1 - x, loss)
  {
    forall x | 0 <= x < L ensures Good(H, L, m, Reverse(nodes)[x], k, L - 1 - x, loss) {
      assert Good(H, L, m, nodes[L - 1 - x], k, L - 1 - x, loss);
    }
  }

  /* ---- Versions that were not committed ---- */

  /** No commit made version v, and the root's chain can be rebuilt as of it. */
  ghost predicate Vacant(s: State, h: seq<Commit>, v: nat) {
    !Committed(h, v) && Linked(ChainOf(s, []).stored) && Recoverable(ChainOf(s, []), v)
  }

  lemma {:induction false} TouchIsCommitted(h: seq<Commit>, p: Path)
    requires LastTouch(h, p) > 0
    ensures Committed(h, LastTouch(h, p))
    decreases |h|
  {
    if Touches(h[|h| - 1].batch, p) {
      assert h[|h| - 1].version == LastTouch(h, p);
    } else {
      TouchIsCommitted(h[..|h| - 1], p);
      var i :| 0 <= i < |h[..|h| - 1]| && h[..|h| - 1][i].version == LastTouch(h, p);
      assert h[i].version == LastTouch(h, p);
    }
  }

  lemma UptoCommitted(h: seq<Commit>, L: nat, v: nat)
    requires ValidHistory(h, L) && LastTouch(Upto(h, v), []) == v > 0
    ensures Committed(h, v)
  {
    TouchIsCommitted(Upto(h, v), []);
    UptoPrefix(h, v, L);
    var i :| 0 <= i < |Upto(h, v)| && Upto(h, v)[i].version == v;
    assert h[i].version == v;
  }

  /** There is no root page of such a version, or before the first an empty one. */
  lemma VacantRoot(H: Hash, L: nat, s: State, h: seq<Commit>, v: nat, loss: Loss)
    requires Agrees(H, L, s, h, loss) && Vacant(s, h, v)
    ensures var l := GetPage(s, v, []).0; l == Missing || (l.Found? && l.p.root.None?)
  {
    var g: Snaps :| TrieInv(H, L, s, g, h, loss);
    assert PageInv(H, L, s, g, h, [], loss);
    GetPageExact(s, Kind(L, []), SnapsOf(g, []), v, [], loss);
    if v in SnapsOf(g, []) { UptoCommitted(h, L, v); }
    if v == 0 {
      SameEmpty(GetPage(s, v, []).0.p, loss);
    }
  }

  /** Get answers "" at a version that no commit made, and GetProof an empty proof. */
  lemma VacantAnswers(H: Hash, L: nat, s: State, h: seq<Commit>, v: nat, k: Path, loss: Loss)
    requires Agrees(H, L, s, h, loss) && Vacant(s, h, v)
    ensures Get(s, v, k).0 == Some([]) && GetProof(s, v, k).0 == Some(Proof([], [])) && GetRootHash(s, v).0 == None
  {
    VacantRoot(H, L, s, h, v, loss);
    assert k[..0] == [];
    VacantDescent(s, v, k);
  }

  lemma VacantDescent(s: State, v: nat, k: Path)
    requires var l := GetPage(s, v, k[..0]).0; l == Missing || (l.Found? && l.p.root.None?)
    ensures Descend(s, v, k, 0, None, []).0 == Absent([])
  {
    var (l, s1) := GetPage(s, v, k[..0]);
    if l.Found? { assert Visit(s1, v, k, 0, None, [], l.p) == (Absent([]), s1); }
  }

  /* ---- One proof, one value ---- */

  ghost predicate Injective(H: Hash) {
    forall a, b :: H(a) == H(b) ==> a == b
  }

  lemma {:induction false} JoinCancels(parts: seq<Bytes>, i: nat, a: Bytes, b: Bytes)
    requires i < |parts| && Join(parts[i := a]) == Join(parts[i := b])
    ensures a == b
    decreases |parts|
  {
    var s, t := parts[i := a], parts[i := b];
    if i == 0 {
      assert s[1..] == t[1..];
      var rest := Join(s[1..]);
      assert a + rest == b + rest;
      assert |a| == |b|;
      assert a == (a + rest)[..|a|] == (b + rest)[..|b|] == b;
    } else {
      assert s[0] == t[0];
      assert s[1..] == parts[1..][i - 1 := a] && t[1..] == parts[1..][i - 1 := b];
      var head := s[0];
      assert Join(s[1..]) == (head + Join(s[1..]))[|head|..];
      assert Join(t[1..]) == (head + Join(t[1..]))[|head|..];
      JoinCancels(parts[1..], i - 1, a, b);
    }
  }

  lemma {:induction false} FoldCancels(H: Hash, a: Bytes, b: Bytes, nodes: seq<NodeProof>)
    requires Injective(H) && forall x :: 0 <= x < |nodes| ==> |nodes[x].siblings| == FANOUT
    requires Fold(H, a, nodes) == Fold(H, b, nodes)
    ensures a == b
    decreases |nodes|
  {
    if nodes != [] {
      FoldCancels(H, NodeHash(H, nodes[0], a), NodeHash(H, nodes[0], b), nodes[1..]);
      JoinCancels(nodes[0].siblings, nodes[0].index, a, b);
    }
  }

  /** Under an injective hash one list of nodes and one root hash accept at most one value. */
  lemma VerifyAcceptsOne(H: Hash, value: Bytes, value': Bytes, rootHash: Bytes, nodes: seq<NodeProof>)
    requires Injective(H) && forall x :: 0 <= x < |nodes| ==> |nodes[x].siblings| == FANOUT
    requires Verify(H, value, rootHash, nodes) && Verify(H, value', rootHash, nodes)
    ensures value == value'
  {
    FoldCancels(H, H(value), H(value'), nodes);
  }

  ghost predicate Wide(nodes: seq<NodeProof>) {
    forall x :: 0 <= x < |nodes| ==> |nodes[x].siblings| == FANOUT
  }

  lemma FoldAcceptsIff(H: Hash, L: nat, m: map<Path, Bytes>, nodes: seq<NodeProof>, k: Path, value: Bytes)
    requires Injective(H) && |nodes| == L == |k| && AllGood(H, L, m, nodes, k, Lossless) && k in m
    ensures Wide(Reverse(nodes))
    ensures Verify(H, value, Merkle(H, m, [], L), Reverse(nodes)) <==>
            if m[k] == [] then H(value) == [] else value == m[k]
  {
    FoldToRoot(H, L, m, nodes, k);
    assert k[..L] == k;
    if Verify(H, value, Merkle(H, m, [], L), Reverse(nodes)) {
      FoldCancels(H, H(value), Merkle(H, m, k, L), Reverse(nodes));
    }
  }

  /** The proof of a key is accepted with the key's value and no other. The leaf hash of a
      deleted key is "" and not the hash of "", so its proof is accepted with no value,
      unless something hashes to "". */
  lemma ProofAcceptsIff(H: Hash, L: nat, s: State, h: seq<Commit>, v: nat, k: Path, value: Bytes)
    requires Agrees(H, L, s, h, Lossless) && Committed(h, v) && |k| == L && PathRecoverable(s, h, v, k)
    requires k in Contents(Upto(h, v)) && Injective(H)
    ensures var proof, root, now := GetProof(s, v, k).0, GetRootHash(s, v).0, Value(Upto(h, v), k);
            proof.Some? && root.Some? && |proof.value.nodes| == L && Wide(proof.value.nodes) &&
            proof.value.value == FirstLine(now) &&
            (Verify(H, value, root.value, proof.value.nodes) <==> if now == [] then H(value) == [] else value == now)
  {
    DescendFromRoot(H, L, s, h, v, k, Lossless);
    assert PageRecoverable(s, h, v, k[..0]) && k[..0] == [];
    RootHashIsMerkle(H, L, s, h, v, Lossless);
    FoldAcceptsIff(H, L, Contents(Upto(h, v)), Descend(s, v, k, 0, None, []).0.proofs, k, value);
  }
}
