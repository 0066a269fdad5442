/** What clients ask of the store and what that must leave behind, read off the list of
    their calls: each key has the value of the last write that was accepted before the last
    commit. */
module Clients {
  import opened Types
  import opened History

  /** A call of a client; Passes is anything that neither writes nor commits. */
  datatype Event =
    | Puts(version: nat, key: Path, value: Bytes)
    | Deletes(version: nat, key: Path)
    | Commits(version: nat)
    | Passes

  /* ---- Read off the list ---- */

  /** A put of "" is refused. */
  predicate IsWrite(e: Event) {
    (e.Puts? && e.value != []) || e.Deletes?
  }

  function VersionOf(e: Event): nat {
    if e.Passes? then 0 else e.version
  }

  /** What a write leaves: a deleted key has the value "". */
  function Written(e: Event): Bytes {
    if e.Puts? then e.value else []
  }

  /** Write i is accepted unless an accepted write before it has a newer version. */
  predicate Accepted(es: seq<Event>, i: nat) {
    i < |es| && IsWrite(es[i]) &&
    forall j: nat :: j < i && Accepted(es, j) ==> VersionOf(es[j]) <= VersionOf(es[i])
  }

  /** Write i is accepted and writes key k. */
  predicate Writes(es: seq<Event>, i: nat, k: Path) {
    Accepted(es, i) && !es[i].Passes? && !es[i].Commits? && es[i].key == k
  }

  /* ---- Call by call ---- */

  /** The version reached, the writes buffered, and the batches committed. */
  datatype Client = Client(current: nat, put: map<Path, Bytes>, history: seq<Commit>)

  const NEW_CLIENT := Client(0, map[], [])

  function Act(c: Client, e: Event): Client {
    match e
    case Puts(v, k, value) =>
      if v < c.current || value == [] then c else c.(current := v, put := c.put[k := value])
    case Deletes(v, k) =>
      if v < c.current then c else c.(current := v, put := c.put[k := []])
    case Commits(w) =>
      if c.put == map[] then c else c.(put := map[], history := c.history + [Commit(w, c.put)])
    case Passes => c
  }

  function ClientAfter(es: seq<Event>): Client {
    if es == [] then NEW_CLIENT else Act(ClientAfter(es[..|es| - 1]), es[|es| - 1])
  }

  /** The contents once the buffered writes are committed. */
  function Pending(c: Client): map<Path, Bytes> {
    Contents(c.history) + c.put
  }

  /* ---- Acceptance ---- */

  lemma {:induction false} AcceptedBefore(es: seq<Event>, n: nat, i: nat)
    requires i < n <= |es|
    ensures Accepted(es[..n], i) <==> Accepted(es, i)
    decreases i
  {
    forall j: nat | j < i ensures Accepted(es[..n], j) <==> Accepted(es, j) { AcceptedBefore(es, n, j); }
  }

  /** The version reached is the newest one accepted. */
  lemma {:induction false} CurrentIsNewest(es: seq<Event>)
    ensures forall j: nat :: Accepted(es, j) ==> VersionOf(es[j]) <= ClientAfter(es).current
    ensures ClientAfter(es).current > 0 ==>
              exists j: nat :: Accepted(es, j) && VersionOf(es[j]) == ClientAfter(es).current
    decreases |es|
  {
    if es != [] {
      var n := |es| - 1;
      var before := es[..n];
      CurrentIsNewest(before);
      AcceptedNext(es);
      forall j: nat | j < n ensures Accepted(before, j) <==> Accepted(es, j) { AcceptedBefore(es, n, j); }
      if ClientAfter(es).current > 0 && !Accepted(es, n) {
        var j: nat :| Accepted(before, j) && VersionOf(before[j]) == ClientAfter(before).current;
        assert Accepted(es, j);
      }
    }
  }

  /** The last call is accepted exactly if it is a write that is not outdated. */
  lemma AcceptedNext(es: seq<Event>)
    requires es != []
    ensures var n := |es| - 1;
            Accepted(es, n) <==> IsWrite(es[n]) && ClientAfter(es[..n]).current <= VersionOf(es[n])
    decreases |es|, 0
  {
    var n := |es| - 1;
    var before := es[..n];
    CurrentIsNewest(before);
    forall j: nat | j < n ensures Accepted(before, j) <==> Accepted(es, j) { AcceptedBefore(es, n, j); }
    if Accepted(es, n) && ClientAfter(before).current > 0 {
      var j: nat :| Accepted(before, j) && VersionOf(before[j]) == ClientAfter(before).current;
      assert Accepted(es, j);
    }
  }

  lemma WritesBefore(es: seq<Event>, n: nat, k: Path)
    requires n <= |es|
    ensures forall i: nat :: i < n ==> (Writes(es[..n], i, k) <==> Writes(es, i, k))
  {
    forall i: nat | i < n ensures Writes(es[..n], i, k) <==> Writes(es, i, k) { AcceptedBefore(es, n, i); }
  }

  /* ---- The value of a key ---- */

  lemma PendingNext(c: Client, e: Event, k: Path)
    ensures var m, m' := Pending(c), Pending(Act(c, e));
            if IsWrite(e) && c.current <= VersionOf(e) && e.key == k then k in m' && m'[k] == Written(e)
            else (k in m' <==> k in m) && (k in m ==> m'[k] == m[k])
  {
    if e.Commits? && c.put != map[] {
      assert (c.history + [Commit(e.version, c.put)])[..|c.history|] == c.history;
    }
  }

  /** A key holds what the last accepted write of it wrote. */
  lemma {:induction false} LastWriteCounts(es: seq<Event>, i: nat, k: Path)
    requires Writes(es, i, k) && forall j: nat :: i < j ==> !Writes(es, j, k)
    ensures k in Pending(ClientAfter(es)) && Pending(ClientAfter(es))[k] == Written(es[i])
    decreases |es|
  {
    var n := |es| - 1;
    AcceptedNext(es);
    PendingNext(ClientAfter(es[..n]), es[n], k);
    if i < n {
      WritesBefore(es, n, k);
      assert !Writes(es, n, k);
      LastWriteCounts(es[..n], i, k);
    }
  }

  /** And a key that no accepted write names is not there. */
  lemma {:induction false} NeverWritten(es: seq<Event>, k: Path)
    requires forall j: nat :: !Writes(es, j, k)
    ensures k !in Pending(ClientAfter(es))
    decreases |es|
  {
    if es != [] {
      var n := |es| - 1;
      AcceptedNext(es);
      PendingNext(ClientAfter(es[..n]), es[n], k);
      WritesBefore(es, n, k);
      assert !Writes(es, n, k);
      NeverWritten(es[..n], k);
    }
  }

  /** Call c is a commit, and the last one. */
  ghost predicate LastCommit(es: seq<Event>, c: nat) {
    c < |es| && es[c].Commits? && forall j :: c < j < |es| ==> !es[j].Commits?
  }

  lemma {:induction false} HistorySince(es: seq<Event>, c: nat)
    requires LastCommit(es, c)
    ensures ClientAfter(es).history == ClientAfter(es[..c + 1]).history && ClientAfter(es[..c + 1]).put == map[]
    ensures Contents(ClientAfter(es).history) == Pending(ClientAfter(es[..c]))
    decreases |es|
  {
    var n := |es| - 1;
    if c < n {
      HistorySince(es[..n], c);
      assert es[..n][..c + 1] == es[..c + 1] && es[..n][..c] == es[..c];
    } else {
      assert es[..c + 1] == es;
      var before := ClientAfter(es[..c]);
      if before.put != map[] {
        assert (before.history + [Commit(es[c].version, before.put)])[..|before.history|] == before.history;
      }
    }
  }

  /** After a list of calls whose last commit is c, a key has the value of the last accepted
      write of it before c. */
  lemma ValueIsLastWrite(es: seq<Event>, c: nat, i: nat, k: Path)
    requires LastCommit(es, c) && i < c && Writes(es, i, k) && forall j: nat :: i < j < c ==> !Writes(es, j, k)
    ensures k in Contents(ClientAfter(es).history) && Value(ClientAfter(es).history, k) == Written(es[i])
  {
    HistorySince(es, c);
    WritesBefore(es, c, k);
    LastWriteCounts(es[..c], i, k);
  }

  /** And without one no value. */
  lemma UnwrittenHasNone(es: seq<Event>, c: nat, k: Path)
    requires LastCommit(es, c) && forall j: nat :: j < c ==> !Writes(es, j, k)
    ensures k !in Contents(ClientAfter(es).history) && Value(ClientAfter(es).history, k) == []
  {
    HistorySince(es, c);
    WritesBefore(es, c, k);
    NeverWritten(es[..c], k);
  }

  /** A put or delete that is not accepted changes nothing, whatever follows. */
  lemma {:induction false} RefusedIsNothing(before: seq<Event>, e: Event, more: seq<Event>)
    requires (e.Puts? || e.Deletes?) && !Accepted(before + [e], |before|)
    ensures ClientAfter(before + [e] + more) == ClientAfter(before + more)
    decreases |more|
  {
    if more == [] {
      AcceptedNext(before + [e]);
      assert (before + [e])[..|before|] == before && before + [e] + more == before + [e] && before + more == before;
    } else {
      var n := |more| - 1;
      RefusedIsNothing(before, e, more[..n]);
      var a, b := before + [e] + more, before + more;
      assert a[..|a| - 1] == before + [e] + more[..n] && b[..|b| - 1] == before + more[..n];
    }
  }

  /* ---- Older versions ---- */

  /** Batches are only ever added. */
  lemma {:induction false} HistoryOnlyGrows(es: seq<Event>, n: nat)
    requires n <= |es|
    ensures ClientAfter(es[..n]).history <= ClientAfter(es).history
    decreases |es|
  {
    if n < |es| {
      HistoryOnlyGrows(es[..|es| - 1], n);
      assert es[..|es| - 1][..n] == es[..n];
    } else {
      assert es[..n] == es;
    }
  }

  lemma {:induction false} UptoPart(h: seq<Commit>, g: seq<Commit>, L: nat)
    requires ValidHistory(h, L) && g <= h && g != []
    ensures Upto(h, Latest(g)) == g
    decreases |h|
  {
    if |g| < |h| {
      assert h[|g| - 1].version < Latest(h);
      ValidPrefix(h, L);
      UptoPart(h[..|h| - 1], g, L);
    } else {
      assert g == h;
    }
  }

  /** The simple store as of a commit is what the calls up to it left. */
  lemma StoreAsOf(es: seq<Event>, c: nat, L: nat)
    requires c < |es| && ValidHistory(ClientAfter(es).history, L) && ClientAfter(es[..c + 1]).history != []
    ensures var h := ClientAfter(es[..c + 1]).history; Upto(ClientAfter(es).history, Latest(h)) == h
  {
    HistoryOnlyGrows(es, c + 1);
    UptoPart(ClientAfter(es).history, ClientAfter(es[..c + 1]).history, L);
  }
}
