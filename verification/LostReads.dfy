/** What Get answers about a version whose root page was lost: the newest value. */
module LostReads {
  import opened Types
  import opened Pages
  import opened Chains
  import opened ChainInvariant
  import opened Loads
  import opened Lost
  import opened ValueLog
  import opened History
  import opened PageSpecs
  import opened TrieState
  import opened TrieInvariant
  import opened TrieCommit
  import opened TrieRuns
  import opened TrieReads
  import opened TrieTheorems

  /** The state of the root's chain right after a checkpoint at w that no frozen delta page
      came with, nor any after v. */
  predicate RootLost(c: Chain, v: nat, w: nat) {
    v < w && c.base == w && c.active.items == [] && c.active.last == Key(w, false) && FirstAbove(c.frozen, v).None?
  }

  lemma LostLoad(c: Chain, snaps: map<nat, Page>, n: nat, w: nat, current: nat, v: nat, loss: Loss)
    requires Inv(c, snaps, n, w, loss) && RootLost(c, v, w) && w in snaps && w <= current
    ensures var l := LoadPage(c, current, v); l.Found? && Same(l.p, snaps[w], loss)
  {
    FirstAboveIs(c.frozen, v);
    BaseRefers(c.stored, c.active.last);
    assert LinkedAt(c.stored, Key(w, false));
    var p := c.stored[Key(w, false)].p;
    assert current !in c.frozen;
    CheckpointAnswers(c, current, v, p);
    assert Same(Rebuilt(c.stored, c.active.last, c.active.items, w), At(snaps, w), loss);
    assert ItemsAt(c.stored, c.active.last) + c.active.items == [];
  }

  lemma RootVisit(H: Hash, L: nat, s: State, h: seq<Commit>, u: nat, v: nat, k: Path, p: Page, loss: Loss)
    requires |k| == L && PageSpec(H, L, h, s.log, [], p, loss)
    ensures Visit(s, u, k, 0, None, [], p) == Visit(s, v, k, 0, None, [], p)
  {
  }

  lemma LostRoot(H: Hash, L: nat, s: State, g: Snaps, h: seq<Commit>, v: nat, loss: Loss)
    requires TrieInv(H, L, s, g, h, loss) && h != [] && RootLost(ChainOf(s, []), v, Latest(h))
    requires Latest(h) <= s.current && CacheKey(v, []) !in s.cache
    ensures var l := GetPage(s, v, []).0; l.Found? && PageSpec(H, L, h, s.log, [], l.p, loss)
  {
    var w, c, snaps := Latest(h), ChainOf(s, []), SnapsOf(g, []);
    assert PageInv(H, L, s, g, h, [], loss);
    assert Latest(h) == w;
    UptoAll(h, w);
    RootTouched(h, L, w);
    NewestSnap(H, L, c, snaps, h, s.log, [], loss);
    LostLoad(c, snaps, Kind(L, []), w, s.current, v, loss);
    var p := GetPage(s, v, []).0.p;
    SameFlip(p, snaps[w], loss);
    SpecSame(H, L, h, s.log, [], snaps[w], p, loss);
  }

  /** From the newest root page on, the descent is that of the newest version. */
  lemma FromNewestRoot(H: Hash, L: nat, s: State, g: Snaps, h: seq<Commit>, v: nat, k: Path, p: Page, loss: Loss)
    requires TrieInv(H, L, s, g, h, loss) && |k| == L && h != [] && PageSpec(H, L, h, s.log, [], p, loss)
    ensures Right(H, L, Visit(s, v, k, 0, None, [], p).0, Contents(h), s.log, k, loss)
    ensures Visit(s, v, k, 0, None, [], p).1.log == s.log
  {
    var w := Latest(h);
    assert k[..0] == [];
    NewestRecoverable(H, L, s, h, w, k, loss);
    UptoAll(h, w);
    RootTouched(h, L, w);
    VisitRight(H, L, s, g, h, w, k, 0, None, [], p, loss);
    RootVisit(H, L, s, h, w, v, k, p, loss);
  }

  /** Asked for a lost version, Get does not fail: it answers the newest value of the key. */
  lemma LostGetIsNewest(H: Hash, L: nat, s: State, h: seq<Commit>, v: nat, k: Path, loss: Loss)
    requires Agrees(H, L, s, h, loss) && |k| == L && h != [] && RootLost(ChainOf(s, []), v, Latest(h))
    requires Latest(h) <= s.current && CacheKey(v, []) !in s.cache
    ensures Get(s, v, k).0 == Some(FirstLine(Value(h, k)))
  {
    var g: Snaps :| TrieInv(H, L, s, g, h, loss);
    var (l, s1) := GetPage(s, v, []);
    assert k[..0] == [];
    LostRoot(H, L, s, g, h, v, loss);
    GetPageKeeps(H, L, s, g, h, v, [], loss);
    ChainsKept(s, v, []);
    FromNewestRoot(H, L, s1, g, h, v, k, l.p, loss);
    assert Descend(s, v, k, 0, None, []) == Visit(s1, v, k, 0, None, [], l.p);
  }
}
