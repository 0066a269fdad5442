/** The ordered map `updates` of CalcRootHash: which page ids a batch touches, with which
    nibbles, longest page ids first. */
module Plans {
  import opened Types
  import opened History
  import opened PageSpecs
  import opened TrieState
  import opened TrieCommit
  import opened TrieRuns

  ghost predicate TouchedBy(keys: set<Path>, p: Path) {
    exists k :: k in keys && p <= k
  }

  /** Page id pid has been entered for key k once the loop over k has come down to from. */
  ghost predicate Entered(k: Path, from: nat, pid: Path, p: Path) {
    |pid| >= from && p <= k
  }

  /** The page ids of all keys, and of k as far as the inner loop has come. */
  ghost predicate Pids(L: nat, keys: set<Path>, k: Path, from: nat, u: map<Path, set<Path>>) {
    forall pid :: pid in u <==> PageId(L, pid) && (TouchedBy(keys, pid) || Entered(k, from, pid, pid))
  }

  ghost predicate Pieces(L: nat, keys: set<Path>, k: Path, from: nat, u: map<Path, set<Path>>) {
    forall pid, nibs :: pid in u ==>
      (nibs in u[pid] <==> |nibs| == Kind(L, pid) && (TouchedBy(keys, pid + nibs) || Entered(k, from, pid, pid + nibs)))
  }

  ghost predicate Collected(L: nat, keys: set<Path>, u: map<Path, set<Path>>) {
    && (forall pid :: pid in u <==> PageId(L, pid) && TouchedBy(keys, pid))
    && (forall pid, nibs :: pid in u ==> (nibs in u[pid] <==> |nibs| == Kind(L, pid) && TouchedBy(keys, pid + nibs)))
  }

  function Enter(u: map<Path, set<Path>>, pid: Path, nibs: Path): map<Path, set<Path>> {
    u[pid := (if pid in u then u[pid] else {}) + {nibs}]
  }

  /** substr(i, 2) */
  function PieceAt(k: Path, i: nat): Path
    requires i <= |k|
  {
    if i + 2 <= |k| then k[i..i + 2] else k[i..]
  }

  lemma PieceIs(L: nat, k: Path, i: nat, nibs: Path)
    requires |k| == L && i <= L
    ensures |PieceAt(k, i)| == Kind(L, k[..i])
    ensures |nibs| == Kind(L, k[..i]) ==> (k[..i] + nibs <= k <==> nibs == PieceAt(k, i))
  {
    var piece := PieceAt(k, i);
    assert k[..i] + piece <= k by { assert k == k[..i] + piece + k[i + |piece|..]; }
    if |nibs| == |piece| && k[..i] + nibs <= k {
      assert k[..i] + nibs == k[..i + |piece|] == k[..i] + piece;
      assert nibs == (k[..i] + nibs)[i..] == (k[..i] + piece)[i..] == piece;
    }
  }

  lemma EnterPids(L: nat, keys: set<Path>, k: Path, i: nat, u: map<Path, set<Path>>)
    requires |k| == L && i <= L && i % 2 == 0 && Pids(L, keys, k, i + 2, u)
    ensures Pids(L, keys, k, i, Enter(u, k[..i], PieceAt(k, i)))
  {
    var u' := Enter(u, k[..i], PieceAt(k, i));
    forall pid ensures pid in u' <==> PageId(L, pid) && (TouchedBy(keys, pid) || Entered(k, i, pid, pid)) {
      if PageId(L, pid) && Entered(k, i, pid, pid) && !Entered(k, i + 2, pid, pid) {
        assert |pid| == i;
        assert pid == k[..i];
      }
    }
  }

  lemma NoOtherAt(L: nat, k: Path, i: nat, pid: Path, nibs: Path)
    requires |k| == L && i <= L && i % 2 == 0 && PageId(L, pid) && pid != k[..i]
    ensures Entered(k, i, pid, pid + nibs) ==> Entered(k, i + 2, pid, pid + nibs)
  {
    if pid + nibs <= k {
      assert pid == (pid + nibs)[..|pid|] == k[..|pid|];
    }
  }

  lemma EnterPieces(L: nat, keys: set<Path>, k: Path, i: nat, u: map<Path, set<Path>>)
    requires |k| == L && i <= L && i % 2 == 0 && Pids(L, keys, k, i + 2, u) && Pieces(L, keys, k, i + 2, u)
    ensures Pieces(L, keys, k, i, Enter(u, k[..i], PieceAt(k, i)))
  {
    var u' := Enter(u, k[..i], PieceAt(k, i));
    forall pid, nibs | pid in u'
      ensures nibs in u'[pid] <==>
              |nibs| == Kind(L, pid) && (TouchedBy(keys, pid + nibs) || Entered(k, i, pid, pid + nibs))
    {
      if pid == k[..i] {
        PieceIs(L, k, i, nibs);
      } else {
        NoOtherAt(L, k, i, pid, nibs);
      }
    }
  }

  /** The inner loop of CalcRootHash over one key. */
  method EnterKey(L: nat, ghost keys: set<Path>, k: Path, u: map<Path, set<Path>>) returns (u': map<Path, set<Path>>)
    requires |k| == L && Collected(L, keys, u)
    ensures Collected(L, keys + {k}, u')
  {
    u' := u;
    var from: nat := if L % 2 == 0 then L + 2 else L + 1;
    while from > 0
      invariant from % 2 == 0 && from <= L + 2 && Pids(L, keys, k, from, u') && Pieces(L, keys, k, from, u')
    {
      from := from - 2;
      EnterPids(L, keys, k, from, u');
      EnterPieces(L, keys, k, from, u');
      u' := Enter(u', k[..from], PieceAt(k, from));
    }
    EndKey(L, keys, k, u');
  }

  lemma EndKey(L: nat, keys: set<Path>, k: Path, u: map<Path, set<Path>>)
    requires Pids(L, keys, k, 0, u) && Pieces(L, keys, k, 0, u)
    ensures Collected(L, keys + {k}, u)
  {
    forall p ensures TouchedBy(keys + {k}, p) <==> TouchedBy(keys, p) || p <= k { TouchedByMore(keys, k, p); }
  }

  lemma TouchedByMore(keys: set<Path>, k: Path, p: Path)
    ensures TouchedBy(keys + {k}, p) <==> TouchedBy(keys, p) || p <= k
  {
    if TouchedBy(keys, p) {
      var x :| x in keys && p <= x;
      assert x in keys + {k};
    }
    if p <= k { assert k in keys + {k}; }
  }

  /** The loop over put_cache_. */
  method CollectUpdates(L: nat, put: map<Path, Bytes>) returns (u: map<Path, set<Path>>)
    requires forall k :: k in put ==> |k| == L
    ensures Collected(L, put.Keys, u)
  {
    u := map[];
    var rest := put.Keys;
    while rest != {}
      invariant rest <= put.Keys && Collected(L, put.Keys - rest, u)
      decreases |rest|
    {
      var k :| k in rest;
      u := EnterKey(L, put.Keys - rest, k, u);
      assert put.Keys - rest + {k} == put.Keys - (rest - {k});
      rest := rest - {k};
    }
    assert put.Keys - {} == put.Keys;
  }

  /* ---- In order ---- */

  /** The first page id in the order of CompareStrings: longer ones come first. Among equally
      long ones any choice is allowed here; the order among them changes nothing below. */
  method LongestPid(u: map<Path, set<Path>>) returns (pid: Path)
    requires u != map[]
    ensures pid in u && forall q :: q in u ==> |q| <= |pid|
  {
    pid :| pid in u.Keys;
    var rest := u.Keys - {pid};
    while rest != {}
      invariant pid in u && rest <= u.Keys && forall q :: q in u && q !in rest ==> |q| <= |pid|
      decreases |rest|
    {
      var q :| q in rest;
      if |q| > |pid| {
        pid := q;
      }
      rest := rest - {q};
    }
  }

  method ListPieces(pieces: set<Path>) returns (nibs: seq<Path>)
    ensures forall x :: x in nibs <==> x in pieces
    ensures forall x, y :: 0 <= x < y < |nibs| ==> nibs[x] != nibs[y]
  {
    nibs := [];
    var rest := pieces;
    while rest != {}
      invariant rest <= pieces && (forall x :: x in nibs <==> x in pieces - rest)
      invariant forall x, y :: 0 <= x < y < |nibs| ==> nibs[x] != nibs[y]
      decreases |rest|
    {
      var x :| x in rest;
      assert forall y :: 0 <= y < |nibs| ==> nibs[y] in nibs;
      nibs := nibs + [x];
      rest := rest - {x};
    }
  }

  ghost predicate Listed(L: nat, batch: map<Path, Bytes>, rest: map<Path, set<Path>>, plan: seq<Work>) {
    Gone(rest, plan) && forall x :: 0 <= x < |plan| ==> WorkFor(L, batch, plan[x])
  }

  ghost predicate Gone(rest: map<Path, set<Path>>, plan: seq<Work>) {
    forall x :: 0 <= x < |plan| ==> plan[x].pid !in rest
  }

  ghost predicate LongestFirst(plan: seq<Work>) {
    forall x, y :: 0 <= x < y < |plan| ==> plan[x].pid != plan[y].pid && |plan[x].pid| >= |plan[y].pid|
  }

  ghost predicate NoneLonger(rest: map<Path, set<Path>>, n: nat) {
    forall pid :: pid in rest ==> |pid| <= n
  }

  ghost predicate Covering(all: map<Path, set<Path>>, rest: map<Path, set<Path>>, plan: seq<Work>) {
    forall pid :: pid in all ==> pid in rest || Planned(plan, pid)
  }

  /** The plan so far, and what is left to be listed. */
  ghost predicate Ordered(L: nat, batch: map<Path, Bytes>, all: map<Path, set<Path>>, rest: map<Path, set<Path>>,
                          plan: seq<Work>) {
    && (forall pid :: pid in rest ==> pid in all && rest[pid] == all[pid])
    && Listed(L, batch, rest, plan) && LongestFirst(plan) && Covering(all, rest, plan)
    && (plan != [] ==> NoneLonger(rest, |plan[|plan| - 1].pid|))
  }

  lemma ListedWork(L: nat, batch: map<Path, Bytes>, all: map<Path, set<Path>>, pid: Path, nibs: seq<Path>)
    requires Collected(L, batch.Keys, all) && pid in all
    requires (forall x :: x in nibs <==> x in all[pid]) && forall x, y :: 0 <= x < y < |nibs| ==> nibs[x] != nibs[y]
    ensures WorkFor(L, batch, Work(pid, nibs))
  {
    forall n: Path | |n| == Kind(L, pid) ensures n in nibs <==> Touches(batch, pid + n) {
    }
    forall x | 0 <= x < |nibs| ensures |nibs[x]| == Kind(L, pid) { assert nibs[x] in nibs; }
  }

  lemma ListedNext(L: nat, batch: map<Path, Bytes>, rest: map<Path, set<Path>>, plan: seq<Work>, work: Work)
    requires Listed(L, batch, rest, plan) && WorkFor(L, batch, work)
    ensures Listed(L, batch, rest - {work.pid}, plan + [work])
  {
  }

  lemma LongestFirstNext(rest: map<Path, set<Path>>, plan: seq<Work>, work: Work)
    requires LongestFirst(plan) && Gone(rest, plan) && work.pid in rest
    requires plan != [] ==> |work.pid| <= |plan[|plan| - 1].pid|
    ensures LongestFirst(plan + [work])
  {
    var plan' := plan + [work];
    forall x, y | 0 <= x < y < |plan'| ensures plan'[x].pid != plan'[y].pid && |plan'[x].pid| >= |plan'[y].pid| {
      if y == |plan| {
        assert plan[x].pid !in rest && (x < |plan| - 1 ==> |plan[x].pid| >= |plan[|plan| - 1].pid|);
      }
    }
  }

  lemma CoveringNext(all: map<Path, set<Path>>, rest: map<Path, set<Path>>, plan: seq<Work>, work: Work)
    requires Covering(all, rest, plan)
    ensures Covering(all, rest - {work.pid}, plan + [work])
  {
    var plan', rest' := plan + [work], rest - {work.pid};
    forall pid | pid in all ensures pid in rest' || Planned(plan', pid) {
      if pid == work.pid {
        assert plan'[|plan|].pid == pid;
      } else if pid !in rest {
        assert Planned(plan, pid);
        var x :| 0 <= x < |plan| && plan[x].pid == pid;
        assert plan'[x].pid == pid;
      }
    }
  }

  lemma OrderedNext(L: nat, batch: map<Path, Bytes>, all: map<Path, set<Path>>, rest: map<Path, set<Path>>,
                    plan: seq<Work>, work: Work)
    requires Ordered(L, batch, all, rest, plan) && work.pid in rest && WorkFor(L, batch, work)
    requires NoneLonger(rest, |work.pid|)
    ensures Ordered(L, batch, all, rest - {work.pid}, plan + [work])
  {
    ListedNext(L, batch, rest, plan, work);
    LongestFirstNext(rest, plan, work);
    CoveringNext(all, rest, plan, work);
  }

  lemma OrderedIsPlan(L: nat, batch: map<Path, Bytes>, all: map<Path, set<Path>>, plan: seq<Work>)
    requires Collected(L, batch.Keys, all) && Ordered(L, batch, all, map[], plan)
    ensures IsPlan(L, batch, plan)
  {
    forall pid | PageId(L, pid) && Touches(batch, pid) ensures Planned(plan, pid) {
    }
  }

  /** The iteration order of `updates`: every touched page id once, with the pieces of the
      touched keys that follow it, no page before a longer one. */
  method BuildPlan(L: nat, put: map<Path, Bytes>) returns (plan: seq<Work>)
    requires forall k :: k in put ==> |k| == L
    ensures IsPlan(L, put, plan)
  {
    var all := CollectUpdates(L, put);
    plan := [];
    var rest := all;
    while rest != map[]
      invariant Ordered(L, put, all, rest, plan)
      decreases |rest.Keys|
    {
      var pid := LongestPid(rest);
      var nibs := ListPieces(rest[pid]);
      ListedWork(L, put, all, pid, nibs);
      OrderedNext(L, put, all, rest, plan, Work(pid, nibs));
      plan := plan + [Work(pid, nibs)];
      assert (rest - {pid}).Keys == rest.Keys - {pid};
      rest := rest - {pid};
    }
    OrderedIsPlan(L, put, all, plan);
  }
}
