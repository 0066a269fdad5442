/** The trie's cache as a recency list: what it holds as a map, and how far back the pages
    of the running commit can have moved. */
module TrieCache {
  import opened Types
  import opened Pages
  import opened PageCache
  import opened TrieState

  type Recency = seq<Entry<CacheKey, Page>>

  lemma MapsUnique(s: Recency, m: map<CacheKey, Page>, m': map<CacheKey, Page>)
    requires Maps(s, m) && Maps(s, m')
    ensures m == m'
  {
    forall k ensures (k in m <==> k in m') && (k in m ==> m[k] == m'[k]) {
      if k in m {
        assert Has(s, k);
        var i :| 0 <= i < |s| && s[i].key == k;
        assert m[s[i].key] == s[i].page && m'[s[i].key] == s[i].page;
      } else {
        assert !Has(s, k);
      }
    }
  }

  lemma FindIsMap(s: Recency, k: CacheKey)
    requires Distinct(s)
    ensures Find(s, k).Some? <==> k in ToMap(s)
    ensures k in ToMap(s) ==> Find(s, k) == Some(ToMap(s)[k])
  {
    ToMapMaps(s);
    FindIs(s, k);
    if Has(s, k) {
      var i :| 0 <= i < |s| && s[i].key == k;
      FindAt(s, i);
    }
  }

  lemma TouchIsSame(s: Recency, k: CacheKey)
    requires Distinct(s) && k in ToMap(s)
    ensures Distinct(Touch(s, k)) && ToMap(Touch(s, k)) == ToMap(s)
  {
    ToMapMaps(s);
    TouchMaps(s, ToMap(s), k);
    ToMapMaps(Touch(s, k));
    MapsUnique(Touch(s, k), ToMap(s), ToMap(Touch(s, k)));
  }

  /** The key that PutPage drops, if any. */
  function Victim(s: Recency, capacity: nat): set<CacheKey> {
    if |s| == capacity && s != [] then {s[|s| - 1].key} else {}
  }

  lemma PutIsUpdate(s: Recency, capacity: nat, k: CacheKey, p: Page)
    requires Distinct(s) && 0 < capacity && |s| <= capacity
    ensures Distinct(PutFront(s, capacity, k, p)) && |PutFront(s, capacity, k, p)| <= capacity
    ensures ToMap(PutFront(s, capacity, k, p)) == (ToMap(s) - Victim(s, capacity))[k := p]
  {
    ToMapMaps(s);
    PutMaps(s, ToMap(s), capacity, k, p);
    var t := PutFront(s, capacity, k, p);
    ToMapMaps(t);
    MapsUnique(t, ToMap(t), (ToMap(s) - Victim(s, capacity))[k := p]);
  }

  lemma MovedIsRekey(s: Recency, from: CacheKey, to: CacheKey, p: Page)
    requires Distinct(s) && from in ToMap(s) && (to == from || to !in ToMap(s))
    ensures Distinct(Moved(s, from, to, p)) && |Moved(s, from, to, p)| == |s|
    ensures ToMap(Moved(s, from, to, p)) == (ToMap(s) - {from})[to := p]
  {
    var t := Moved(s, from, to, p);
    FindIsMap(s, from);
    ToMapMaps(s);
    WithoutIs(s, from);
    HasIn(s, to);
    HasIn(Without(s, from), to);
    FrontDistinct(Without(s, from), to, p);
    forall e ensures e in Without(s, from) <==> e in s && e.key != to && e.key !in {from} {
      if e in s { var i :| 0 <= i < |s| && s[i] == e; assert Has(s, e.key); }
    }
    FrontMaps(s, Without(s, from), ToMap(s), {from}, to, p);
    ToMapMaps(t);
    MapsUnique(t, ToMap(t), (ToMap(s) - {from})[to := p]);
  }

  /* ---- The pages of commit w are among the n most recent ---- */

  ghost predicate Recent(s: Recency, w: nat, n: nat) {
    forall i :: 0 <= i < |s| && s[i].key.version == w ==> i < n
  }

  lemma RecentWithout(s: Recency, k: CacheKey, w: nat, n: nat)
    requires Distinct(s) && Recent(s, w, n)
    ensures Recent(Without(s, k), w, n)
  {
    if Has(s, k) {
      var i :| 0 <= i < |s| && s[i].key == k;
      WithoutAt(s, k, i);
      forall j | 0 <= j < |Without(s, k)| && Without(s, k)[j].key.version == w ensures j < n {
        assert Without(s, k)[j] == s[if j < i then j else j + 1];
      }
    } else {
      WithoutNone(s, k);
    }
  }

  lemma RecentTouch(s: Recency, k: CacheKey, w: nat, n: nat)
    requires Distinct(s) && Recent(s, w, n)
    ensures Recent(Touch(s, k), w, n + 1)
  {
    RecentWithout(s, k, w, n);
  }

  lemma RecentPut(s: Recency, capacity: nat, k: CacheKey, p: Page, w: nat, n: nat)
    requires Distinct(s) && Recent(s, w, n)
    ensures Recent(PutFront(s, capacity, k, p), w, n + 1)
  {
    var s1 := if |s| >= capacity && s != [] then s[..|s| - 1] else s;
    assert Recent(s1, w, n) && Distinct(s1);
    RecentWithout(s1, k, w, n);
  }

  lemma RecentMoved(s: Recency, from: CacheKey, to: CacheKey, p: Page, w: nat, n: nat)
    requires Distinct(s) && Recent(s, w, n)
    ensures Recent(Moved(s, from, to, p), w, n + 1)
  {
    RecentWithout(s, from, w, n);
  }

  /** While fewer pages have been accessed than fit, PutPage never drops one of the commit's. */
  lemma VictimIsOlder(s: Recency, capacity: nat, w: nat, n: nat)
    requires Recent(s, w, n) && n < capacity
    ensures forall k :: k in Victim(s, capacity) ==> k.version != w
  {
  }

  lemma NoneOfCommit(s: Recency, w: nat)
    requires Distinct(s) && forall k :: k in ToMap(s) ==> k.version != w
    ensures Recent(s, w, 0)
  {
    ToMapMaps(s);
    forall i | 0 <= i < |s| ensures s[i].key.version != w { assert Has(s, s[i].key); }
  }

  /** One access pushes the commit's pages back by at most one place, and drops none of them
      while fewer have been accessed than fit. */
  ghost predicate Accessed(s: Recency, t: Recency, capacity: nat, gone: set<CacheKey>) {
    forall w: nat, n: nat :: Recent(s, w, n) ==>
      Recent(t, w, n + 1) && (n < capacity ==> forall k :: k in gone ==> k.version != w)
  }

  lemma TouchAccesses(s: Recency, k: CacheKey, capacity: nat)
    requires Distinct(s)
    ensures Accessed(s, Touch(s, k), capacity, {})
  {
    forall w: nat, n: nat | Recent(s, w, n) ensures Recent(Touch(s, k), w, n + 1) { RecentTouch(s, k, w, n); }
  }

  lemma PutAccesses(s: Recency, k: CacheKey, p: Page, capacity: nat)
    requires Distinct(s)
    ensures Accessed(s, PutFront(s, capacity, k, p), capacity, Victim(s, capacity))
  {
    forall w: nat, n: nat | Recent(s, w, n)
      ensures Recent(PutFront(s, capacity, k, p), w, n + 1) &&
              (n < capacity ==> forall x :: x in Victim(s, capacity) ==> x.version != w)
    {
      RecentPut(s, capacity, k, p, w, n);
      if n < capacity { VictimIsOlder(s, capacity, w, n); }
    }
  }

  lemma VictimIsCached(s: Recency, capacity: nat)
    requires Distinct(s)
    ensures Victim(s, capacity) <= ToMap(s).Keys
  {
    ToMapMaps(s);
    if |s| == capacity && s != [] { assert Has(s, s[|s| - 1].key); }
  }

  /** So do m accesses by at most m places. */
  ghost predicate Pushed(s: Recency, t: Recency, m: nat) {
    forall w: nat, n: nat :: Recent(s, w, n) ==> Recent(t, w, n + m)
  }

  lemma PushedMore(s: Recency, t: Recency, u: Recency, capacity: nat, m: nat, gone: set<CacheKey>)
    requires Pushed(s, t, m) && Accessed(t, u, capacity, gone)
    ensures Pushed(s, u, m + 1)
  {
    forall w: nat, n: nat | Recent(s, w, n) ensures Recent(u, w, n + (m + 1)) {
      assert Recent(t, w, n + m);
    }
  }
}
