/** The trie's bounded cache of pages: a recency list, and a hash map from keys to its
    nodes. The class is proved against functions on the list of entries, most recent first. */
module PageCache {
  import opened Types

  datatype Entry<K, P> = Entry(key: K, page: P)

  /* ---- The recency list as a value ---- */

  predicate Has<K(!new,==), P>(s: seq<Entry<K, P>>, k: K) {
    exists i :: 0 <= i < |s| && s[i].key == k
  }

  function Find<K(!new,==), P>(s: seq<Entry<K, P>>, k: K): Option<P> {
    if s == [] then None else if s[0].key == k then Some(s[0].page) else Find(s[1..], k)
  }

  function Without<K(!new,==), P>(s: seq<Entry<K, P>>, k: K): seq<Entry<K, P>> {
    if s == [] then [] else if s[0].key == k then s[1..] else [s[0]] + Without(s[1..], k)
  }

  /** A hit moves the entry to the front. */
  function Touch<K(!new,==), P>(s: seq<Entry<K, P>>, k: K): seq<Entry<K, P>> {
    match Find(s, k)
    case Some(p) => [Entry(k, p)] + Without(s, k)
    case None => s
  }

  /** PutPage: a full cache first drops its last entry, then an entry under the same key
      is replaced. */
  function PutFront<K(!new,==), P>(s: seq<Entry<K, P>>, capacity: nat, k: K, p: P): seq<Entry<K, P>> {
    var s1 := if |s| >= capacity && s != [] then s[..|s| - 1] else s;
    [Entry(k, p)] + Without(s1, k)
  }

  /** The entry found under the first key goes to the front under the second, with page p. */
  function Moved<K(!new,==), P>(s: seq<Entry<K, P>>, from: K, to: K, p: P): seq<Entry<K, P>> {
    if Find(s, from).Some? then [Entry(to, p)] + Without(s, from) else s
  }

  /** UpdatePageKey: the entry found under the old key is moved to the front under the new one. */
  function Rekey<K(!new,==), P>(s: seq<Entry<K, P>>, old': K, new': K): seq<Entry<K, P>> {
    match Find(s, old')
    case Some(p) => Moved(s, old', new', p)
    case None => s
  }

  ghost predicate Distinct<K(!new), P>(s: seq<Entry<K, P>>) {
    forall i, j :: 0 <= i < j < |s| ==> s[i].key != s[j].key
  }

  lemma {:induction false} FindIs<K(!new), P>(s: seq<Entry<K, P>>, k: K)
    ensures Find(s, k).Some? <==> Has(s, k)
    ensures Find(s, k).Some? ==> Entry(k, Find(s, k).value) in s
    decreases |s|
  {
    if s != [] {
      if s[0].key != k {
        FindIs(s[1..], k);
        if Has(s, k) {
          var i :| 0 <= i < |s| && s[i].key == k;
          assert s[1..][i - 1].key == k;
        }
        if Has(s[1..], k) {
          var i :| 0 <= i < |s[1..]| && s[1..][i].key == k;
          assert s[i + 1].key == k;
        }
      }
    }
  }

  lemma {:induction false} FindAt<K(!new), P>(s: seq<Entry<K, P>>, i: nat)
    requires Distinct(s) && i < |s|
    ensures Find(s, s[i].key) == Some(s[i].page)
    decreases |s|
  {
    if i > 0 {
      assert s[0].key != s[i].key && s[1..][i - 1] == s[i];
      FindAt(s[1..], i - 1);
    }
  }

  lemma {:induction false} WithoutAt<K(!new), P>(s: seq<Entry<K, P>>, k: K, i: nat)
    requires Distinct(s) && i < |s| && s[i].key == k
    ensures Without(s, k) == s[..i] + s[i + 1..]
    decreases |s|
  {
    if i > 0 {
      var rest := s[1..];
      assert rest[i - 1].key == k && s[0].key != k;
      WithoutAt(rest, k, i - 1);
      assert rest[..i - 1] == s[1..i] && rest[i..] == s[i + 1..];
      assert s[..i] == [s[0]] + s[1..i];
    }
  }

  lemma {:induction false} WithoutNone<K(!new), P>(s: seq<Entry<K, P>>, k: K)
    requires !Has(s, k)
    ensures Without(s, k) == s
    decreases |s|
  {
    if s != [] {
      assert s[0].key != k;
      assert forall i :: 0 <= i < |s[1..]| ==> s[1..][i] == s[i + 1];
      WithoutNone(s[1..], k);
    }
  }

  lemma CutIs<K(!new), P>(s: seq<Entry<K, P>>, i: nat)
    requires Distinct(s) && i < |s|
    ensures var t := s[..i] + s[i + 1..];
            Distinct(t) && !Has(t, s[i].key) && forall e :: e in t <==> e in s && e.key != s[i].key
  {
    var t := s[..i] + s[i + 1..];
    assert forall j :: 0 <= j < |t| ==> t[j] == if j < i then s[j] else s[j + 1];
    forall e | e in s && e.key != s[i].key ensures e in t {
      var j :| 0 <= j < |s| && s[j] == e;
      assert t[if j < i then j else j - 1] == e;
    }
  }

  lemma WithoutIs<K(!new), P>(s: seq<Entry<K, P>>, k: K)
    requires Distinct(s)
    ensures Distinct(Without(s, k)) && !Has(Without(s, k), k)
    ensures |Without(s, k)| == if Has(s, k) then |s| - 1 else |s|
    ensures forall e :: e in Without(s, k) <==> e in s && e.key != k
  {
    if Has(s, k) {
      var i :| 0 <= i < |s| && s[i].key == k;
      WithoutAt(s, k, i);
      CutIs(s, i);
    } else {
      WithoutNone(s, k);
    }
  }

  /** The cache as a finite map. */
  ghost predicate Maps<K(!new), P>(s: seq<Entry<K, P>>, m: map<K, P>) {
    (forall k :: k in m <==> Has(s, k)) && forall i :: 0 <= i < |s| ==> s[i].key in m && m[s[i].key] == s[i].page
  }

  lemma HasIn<K(!new), P>(s: seq<Entry<K, P>>, k: K)
    ensures Has(s, k) <==> exists p :: Entry(k, p) in s
  {
    if Has(s, k) {
      var i :| 0 <= i < |s| && s[i].key == k;
      assert Entry(k, s[i].page) in s;
    }
  }

  lemma FrontMaps<K(!new), P>(s: seq<Entry<K, P>>, t: seq<Entry<K, P>>, m: map<K, P>, gone: set<K>, k: K, p: P)
    requires Distinct(s) && Maps(s, m)
    requires forall e :: e in t <==> e in s && e.key != k && e.key !in gone
    ensures Maps([Entry(k, p)] + t, (m - gone)[k := p])
  {
    var r, m' := [Entry(k, p)] + t, (m - gone)[k := p];
    forall i | 0 <= i < |r| ensures r[i].key in m' && m'[r[i].key] == r[i].page {
      if i > 0 {
        assert r[i] in t;
        var j :| 0 <= j < |s| && s[j] == r[i];
      }
    }
    forall x ensures x in m' <==> Has(r, x) {
      if x in m' {
        if x == k {
          assert r[0].key == x;
        } else {
          assert Has(s, x);
          var j :| 0 <= j < |s| && s[j].key == x;
          assert s[j] in t;
          var i :| 0 <= i < |t| && t[i] == s[j];
          assert r[i + 1].key == x;
        }
      }
    }
  }

  /** PutPage adds the page under its key and drops at most the least recent entry. */
  lemma PutMaps<K(!new), P>(s: seq<Entry<K, P>>, m: map<K, P>, capacity: nat, k: K, p: P)
    requires Distinct(s) && Maps(s, m) && 0 < capacity && |s| <= capacity
    ensures Distinct(PutFront(s, capacity, k, p)) && |PutFront(s, capacity, k, p)| <= capacity
    ensures var gone := if |s| == capacity then {s[|s| - 1].key} else {};
            Maps(PutFront(s, capacity, k, p), (m - gone)[k := p])
  {
    var full := |s| == capacity;
    var s1 := if full then s[..|s| - 1] else s;
    var gone := if full then {s[|s| - 1].key} else {};
    assert forall e :: e in s1 <==> e in s && e.key !in gone by {
      if full { assert s == s1 + [s[|s| - 1]]; DropLast(s); }
    }
    WithoutIs(s1, k);
    FrontDistinct(Without(s1, k), k, p);
    FrontMaps(s, Without(s1, k), m, gone, k, p);
  }

  lemma DropLast<K(!new), P>(s: seq<Entry<K, P>>)
    requires Distinct(s) && s != []
    ensures forall e :: e in s[..|s| - 1] ==> e.key != s[|s| - 1].key
  {
  }

  lemma FrontDistinct<K(!new), P>(t: seq<Entry<K, P>>, k: K, p: P)
    requires Distinct(t) && !Has(t, k)
    ensures Distinct([Entry(k, p)] + t)
  {
  }

  /** Re-keying leaves nothing under the old key and the page under the new one. */
  lemma RekeyMaps<K(!new), P>(s: seq<Entry<K, P>>, m: map<K, P>, old': K, new': K)
    requires Distinct(s) && Maps(s, m) && old' in m && (new' == old' || new' !in m)
    ensures Distinct(Rekey(s, old', new')) && |Rekey(s, old', new')| == |s|
    ensures Maps(Rekey(s, old', new'), (m - {old'})[new' := m[old']])
  {
    FindIs(s, old');
    var p := Find(s, old').value;
    WithoutIs(s, old');
    assert m[old'] == p by { var i :| 0 <= i < |s| && s[i] == Entry(old', p); }
    if new' != old' {
      assert !Has(Without(s, old'), new') by {
        HasIn(Without(s, old'), new');
        HasIn(s, new');
      }
    }
    FrontDistinct(Without(s, old'), new', p);
    assert forall e :: e in Without(s, old') <==> e in s && e.key != new' && e.key !in {old'} by {
      if new' != old' {
        forall e | e in s ensures e.key != new' { HasIn(s, new'); var i :| 0 <= i < |s| && s[i] == e;
            assert Has(s, e.key); }
      }
    }
    FrontMaps(s, Without(s, old'), m, {old'}, new', p);
  }

  /** A hit changes no binding. */
  lemma TouchMaps<K(!new), P>(s: seq<Entry<K, P>>, m: map<K, P>, k: K)
    requires Distinct(s) && Maps(s, m) && k in m
    ensures Distinct(Touch(s, k)) && |Touch(s, k)| == |s| && Maps(Touch(s, k), m)
  {
    RekeyMaps(s, m, k, k);
    assert (m - {k})[k := m[k]] == m;
  }

  /* ---- The order of the entries ---- */

  /** What was done to the cache: a page was asked for, put in, or moved to another key. */
  datatype Use<K, P> = Asked(key: K) | PutIn(key: K, page: P) | MovedTo(from: K, key: K, page: P)

  function Used<K(!new,==), P>(s: seq<Entry<K, P>>, capacity: nat, use: Use<K, P>): seq<Entry<K, P>> {
    match use
    case Asked(k) => Touch(s, k)
    case PutIn(k, p) => PutFront(s, capacity, k, p)
    case MovedTo(from, k, p) => Moved(s, from, k, p)
  }

  function AfterUses<K(!new,==), P>(capacity: nat, uses: seq<Use<K, P>>): seq<Entry<K, P>> {
    if uses == [] then [] else Used(AfterUses(capacity, uses[..|uses| - 1]), capacity, uses[|uses| - 1])
  }

  /** Pages are moved only from keys that are cached to keys that are not. */
  ghost predicate CanUse<K(!new), P>(s: seq<Entry<K, P>>, use: Use<K, P>) {
    use.MovedTo? ==> Has(s, use.from) && (use.key == use.from || !Has(s, use.key))
  }

  ghost predicate AllCanUse<K(!new), P>(capacity: nat, uses: seq<Use<K, P>>) {
    uses == [] || (AllCanUse(capacity, uses[..|uses| - 1]) &&
                   CanUse(AfterUses(capacity, uses[..|uses| - 1]), uses[|uses| - 1]))
  }

  /** When a key was last used, counted from 1. */
  function LastUse<K(!new,==), P>(uses: seq<Use<K, P>>, k: K): nat {
    if uses == [] then 0 else if uses[|uses| - 1].key == k then |uses| else LastUse(uses[..|uses| - 1], k)
  }

  /** Every entry was used more recently than those after it. */
  ghost predicate ByRecency<K(!new), P>(s: seq<Entry<K, P>>, uses: seq<Use<K, P>>) {
    forall i, j :: 0 <= i < j < |s| ==> LastUse(uses, s[i].key) > LastUse(uses, s[j].key)
  }

  lemma {:induction false} LastUseBound<K(!new), P>(uses: seq<Use<K, P>>, k: K)
    ensures LastUse(uses, k) <= |uses|
    decreases |uses|
  {
    if uses != [] { LastUseBound(uses[..|uses| - 1], k); }
  }

  lemma WithoutByRecency<K(!new), P>(s: seq<Entry<K, P>>, k: K, uses: seq<Use<K, P>>)
    requires Distinct(s) && ByRecency(s, uses)
    ensures Distinct(Without(s, k)) && !Has(Without(s, k), k) && ByRecency(Without(s, k), uses)
  {
    WithoutIs(s, k);
    if Has(s, k) {
      var i :| 0 <= i < |s| && s[i].key == k;
      WithoutAt(s, k, i);
      CutByRecency(s, i, uses);
    } else {
      WithoutNone(s, k);
    }
  }

  lemma CutByRecency<K(!new), P>(s: seq<Entry<K, P>>, i: nat, uses: seq<Use<K, P>>)
    requires i < |s| && ByRecency(s, uses)
    ensures ByRecency(s[..i] + s[i + 1..], uses)
  {
    var t := s[..i] + s[i + 1..];
    forall a, b | 0 <= a < b < |t| ensures LastUse(uses, t[a].key) > LastUse(uses, t[b].key) {
      var x, y := if a < i then a else a + 1, if b < i then b else b + 1;
      assert t[a] == s[x] && t[b] == s[y];
    }
  }

  /** The key used goes to the front, and the others keep their order. */
  lemma FrontByRecency<K(!new), P>(t: seq<Entry<K, P>>, k: K, p: P, uses: seq<Use<K, P>>, use: Use<K, P>)
    requires Distinct(t) && !Has(t, k) && ByRecency(t, uses) && use.key == k
    ensures Distinct([Entry(k, p)] + t) && ByRecency([Entry(k, p)] + t, uses + [use])
  {
    var s, all := [Entry(k, p)] + t, uses + [use];
    assert all[..|uses|] == uses;
    FrontDistinct(t, k, p);
    forall i | 0 <= i < |t| ensures LastUse(all, t[i].key) == LastUse(uses, t[i].key) <= |uses| {
      assert t[i].key != k;
      LastUseBound(uses, t[i].key);
    }
    assert LastUse(all, k) == |uses| + 1;
  }

  /** A miss changes nothing, for the key that was asked for is not in the list. */
  lemma MissByRecency<K(!new), P>(s: seq<Entry<K, P>>, k: K, uses: seq<Use<K, P>>, use: Use<K, P>)
    requires ByRecency(s, uses) && use.key == k && !Has(s, k)
    ensures ByRecency(s, uses + [use])
  {
    assert (uses + [use])[..|uses|] == uses;
    forall i | 0 <= i < |s| ensures LastUse(uses + [use], s[i].key) == LastUse(uses, s[i].key) {
      assert s[i].key != k;
    }
  }

  lemma UsedByRecency<K(!new), P>(s: seq<Entry<K, P>>, capacity: nat, uses: seq<Use<K, P>>, use: Use<K, P>)
    requires Distinct(s) && ByRecency(s, uses) && CanUse(s, use)
    ensures Distinct(Used(s, capacity, use)) && ByRecency(Used(s, capacity, use), uses + [use])
  {
    match use
    case Asked(k) =>
      FindIs(s, k);
      if Has(s, k) {
        WithoutByRecency(s, k, uses);
        FrontByRecency(Without(s, k), k, Find(s, k).value, uses, use);
      } else {
        MissByRecency(s, k, uses, use);
      }
    case PutIn(k, p) =>
      var s1 := if |s| >= capacity && s != [] then s[..|s| - 1] else s;
      WithoutByRecency(s1, k, uses);
      FrontByRecency(Without(s1, k), k, p, uses, use);
    case MovedTo(from, k, p) =>
      FindIs(s, from);
      WithoutByRecency(s, from, uses);
      HasIn(Without(s, from), k);
      HasIn(s, k);
      WithoutIs(s, from);
      FrontByRecency(Without(s, from), k, p, uses, use);
  }

  /** Whatever was done to the cache, its entries stand in the order of their last use, so
      that the one a full cache gives up is the one that was not used for longest. */
  lemma {:induction false} LeastRecentIsLast<K(!new), P>(capacity: nat, uses: seq<Use<K, P>>)
    requires AllCanUse(capacity, uses)
    ensures Distinct(AfterUses(capacity, uses)) && ByRecency(AfterUses(capacity, uses), uses)
    decreases |uses|
  {
    if uses != [] {
      var before, use := uses[..|uses| - 1], uses[|uses| - 1];
      LeastRecentIsLast(capacity, before);
      UsedByRecency(AfterUses(capacity, before), capacity, before, use);
      assert before + [use] == uses;
    }
  }

  ghost function ToMap<K(!new), P>(s: seq<Entry<K, P>>): map<K, P> {
    if s == [] then map[] else ToMap(s[1..])[s[0].key := s[0].page]
  }

  lemma HeadMaps<K(!new), P>(s: seq<Entry<K, P>>, m: map<K, P>)
    requires s != [] && Distinct(s) && Maps(s[1..], m)
    ensures Maps(s, m[s[0].key := s[0].page])
  {
    FrontMaps(s[1..], s[1..], m, {}, s[0].key, s[0].page);
    assert [Entry(s[0].key, s[0].page)] + s[1..] == s;
    assert m - {} == m;
  }

  lemma {:induction false} ToMapMaps<K(!new), P>(s: seq<Entry<K, P>>)
    requires Distinct(s)
    ensures Maps(s, ToMap(s))
    decreases |s|
  {
    if s != [] {
      ToMapMaps(s[1..]);
      HeadMaps(s, ToMap(s[1..]));
    }
  }
}
