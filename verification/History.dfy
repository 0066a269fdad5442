/** The simple store that the paged one must agree with: a list of committed batches,
    the map they add up to, and the Merkle hash of that map. */
module History {
  import opened Types
  import opened Pages

  /** One committed batch; a deleted key is mapped to the empty value. */
  datatype Commit = Commit(version: nat, batch: map<Path, Bytes>)

  ghost predicate ValidHistory(h: seq<Commit>, L: nat) {
    && (forall i, j :: 0 <= i < j < |h| ==> h[i].version < h[j].version)
    && (forall i :: 0 <= i < |h| ==> h[i].version > 0 && h[i].batch != map[])
    && (forall i, k :: 0 <= i < |h| && k in h[i].batch ==> |k| == L)
  }

  /** The newest version, 0 if there is none. */
  function Latest(h: seq<Commit>): nat {
    if h == [] then 0 else h[|h| - 1].version
  }

  /** Every key ever written with its last value. */
  function Contents(h: seq<Commit>): map<Path, Bytes> {
    if h == [] then map[] else Contents(h[..|h| - 1]) + h[|h| - 1].batch
  }

  /** The commits up to version v. */
  function Upto(h: seq<Commit>, v: nat): seq<Commit> {
    if h == [] || Latest(h) <= v then h else Upto(h[..|h| - 1], v)
  }

  predicate Touches(batch: map<Path, Bytes>, p: Path) {
    exists k :: k in batch && p <= k
  }

  /** The last commit that wrote a key beginning with p, 0 if none. */
  function LastTouch(h: seq<Commit>, p: Path): nat {
    if h == [] then 0
    else if Touches(h[|h| - 1].batch, p) then Latest(h)
    else LastTouch(h[..|h| - 1], p)
  }

  /** What Get must answer. */
  function Value(h: seq<Commit>, k: Path): Bytes {
    var m := Contents(h);
    if k in m then m[k] else []
  }

  /* ---- The Merkle hash of a map ---- */

  function Merkle(H: Hash, m: map<Path, Bytes>, p: Path, L: nat): Bytes
    decreases if |p| < L then L - |p| else 0, 1
  {
    if |p| >= L then (if p in m then LeafHash(H, m[p]) else [])
    else H(Join(ChildHashes(H, m, p, L)))
  }

  function ChildHashes(H: Hash, m: map<Path, Bytes>, p: Path, L: nat): (s: seq<Bytes>)
    ensures |s| == FANOUT
    ensures |p| < L ==>
              forall i: Nibble :: s[i] == if Touches(m, p + [i]) then Merkle(H, m, p + [i], L) else []
    decreases if |p| < L then L - |p| else 0, 0
  {
    seq(FANOUT, i requires 0 <= i < FANOUT =>
      if |p| < L && Touches(m, p + [i]) then Merkle(H, m, p + [i], L) else [])
  }

  /** Two maps agree on the keys that begin with p. */
  ghost predicate AgreeOn(m: map<Path, Bytes>, n: map<Path, Bytes>, p: Path) {
    forall k :: p <= k ==> (k in m <==> k in n) && (k in m ==> m[k] == n[k])
  }

  lemma AgreeTouches(m: map<Path, Bytes>, n: map<Path, Bytes>, p: Path)
    requires AgreeOn(m, n, p)
    ensures Touches(m, p) == Touches(n, p)
  {
  }

  lemma {:induction false} AgreeMerkle(H: Hash, m: map<Path, Bytes>, n: map<Path, Bytes>, p: Path, L: nat)
    requires |p| <= L && AgreeOn(m, n, p)
    ensures Merkle(H, m, p, L) == Merkle(H, n, p, L)
    decreases L - |p|
  {
    if |p| < L {
      var s, t := ChildHashes(H, m, p, L), ChildHashes(H, n, p, L);
      forall i: Nibble ensures s[i] == t[i] {
        assert AgreeOn(m, n, p + [i]);
        AgreeTouches(m, n, p + [i]);
        AgreeMerkle(H, m, n, p + [i], L);
      }
      assert s == t;
    }
  }

  /* ---- Facts about histories ---- */

  lemma ValidPrefix(h: seq<Commit>, L: nat)
    requires ValidHistory(h, L) && h != []
    ensures ValidHistory(h[..|h| - 1], L)
  {
    var g := h[..|h| - 1];
    assert forall i :: 0 <= i < |g| ==> g[i] == h[i];
  }

  lemma {:induction false} TouchIsWritten(h: seq<Commit>, p: Path, L: nat)
    requires ValidHistory(h, L)
    ensures LastTouch(h, p) > 0 <==> Touches(Contents(h), p)
    ensures LastTouch(h, p) > 0 ==> h != [] && LastTouch(h, p) <= Latest(h)
    decreases |h|
  {
    if h != [] {
      ValidPrefix(h, L);
      var g, b := h[..|h| - 1], h[|h| - 1].batch;
      TouchIsWritten(g, p, L);
      TouchesSum(Contents(g), b, p);
      if g != [] { assert g[|g| - 1] == h[|h| - 2]; }
    }
  }

  lemma TouchesSum(m: map<Path, Bytes>, b: map<Path, Bytes>, p: Path)
    ensures Touches(m + b, p) <==> Touches(m, p) || Touches(b, p)
  {
    if Touches(m, p) { var k :| k in m && p <= k; assert k in m + b; }
    if Touches(b, p) { var k :| k in b && p <= k; assert k in m + b; }
    if Touches(m + b, p) { var k :| k in m + b && p <= k; assert k in m || k in b; }
  }

  lemma TouchesShorter(m: map<Path, Bytes>, p: Path, q: Path)
    requires p <= q && Touches(m, q)
    ensures Touches(m, p)
  {
    var k :| k in m && q <= k;
    assert p <= k;
  }

  lemma {:induction false} KeyLengths(h: seq<Commit>, L: nat, k: Path)
    requires ValidHistory(h, L) && k in Contents(h)
    ensures |k| == L
    decreases |h|
  {
    ValidPrefix(h, L);
    if k !in h[|h| - 1].batch {
      KeyLengths(h[..|h| - 1], L, k);
    }
  }

  lemma {:induction false} TouchShorter(h: seq<Commit>, p: Path, q: Path, L: nat)
    requires ValidHistory(h, L) && p <= q
    ensures LastTouch(h, q) <= LastTouch(h, p)
    decreases |h|
  {
    if h != [] {
      ValidPrefix(h, L);
      var g := h[..|h| - 1];
      TouchShorter(g, p, q, L);
      TouchIsWritten(g, q, L);
      if g != [] { assert g[|g| - 1] == h[|h| - 2]; }
      if Touches(h[|h| - 1].batch, q) { TouchesShorter(h[|h| - 1].batch, p, q); }
    }
  }

  lemma {:induction false} UptoPrefix(h: seq<Commit>, v: nat, L: nat)
    requires ValidHistory(h, L)
    ensures ValidHistory(Upto(h, v), L) && Upto(h, v) <= h
    ensures Upto(h, v) != [] ==> Upto(h, v)[|Upto(h, v)| - 1].version <= v
    decreases |h|
  {
    if h != [] && Latest(h) > v {
      ValidPrefix(h, L);
      UptoPrefix(h[..|h| - 1], v, L);
      assert h[..|h| - 1] <= h;
    }
  }

  lemma UptoAppend(h: seq<Commit>, c: Commit, v: nat)
    ensures c.version <= v ==> Upto(h + [c], v) == h + [c]
    ensures c.version > v ==> Upto(h + [c], v) == Upto(h, v)
  {
    assert (h + [c])[..|h|] == h;
  }

  lemma UptoAll(h: seq<Commit>, v: nat)
    requires Latest(h) <= v
    ensures Upto(h, v) == h
  {
  }

  /** Nothing under p changed after the last commit that touched p. */
  lemma {:induction false} SinceLastTouch(h: seq<Commit>, p: Path, q: Path, L: nat)
    requires ValidHistory(h, L) && p <= q
    ensures var u := LastTouch(h, p);
            LastTouch(Upto(h, u), q) == LastTouch(h, q) && AgreeOn(Contents(Upto(h, u)), Contents(h), p)
    decreases |h|
  {
    if h != [] {
      var g, b := h[..|h| - 1], h[|h| - 1].batch;
      if !Touches(b, p) {
        ValidPrefix(h, L);
        SinceLastTouch(g, p, q, L);
        TouchIsWritten(g, p, L);
        if g != [] { assert g[|g| - 1] == h[|h| - 2]; }
        if Touches(b, q) { TouchesShorter(b, p, q); }
        assert AgreeOn(Contents(g), Contents(h), p);
      }
    }
  }

  /** A version at which p was touched is the last touch among the commits up to it. */
  predicate TouchedAt(h: seq<Commit>, p: Path, v: nat) {
    v > 0 && LastTouch(Upto(h, v), p) == v
  }

  lemma {:induction false} LastTouchTouched(h: seq<Commit>, p: Path, L: nat)
    requires ValidHistory(h, L) && LastTouch(h, p) > 0
    ensures TouchedAt(h, p, LastTouch(h, p))
  {
    SinceLastTouch(h, p, p, L);
  }

  /** For a full key the last touch is the last write, and decides the value. */
  lemma TouchKey(m: map<Path, Bytes>, k: Path, L: nat)
    requires |k| == L && forall x :: x in m ==> |x| == L
    ensures Touches(m, k) <==> k in m
  {
    if Touches(m, k) {
      var x :| x in m && k <= x;
      assert x == k;
    }
  }
}
