/** The active delta page cache as the mutable object of LSVPS. A page is handed out as its
    place in the pool; the client changes it there and stores it. */
module ActiveDeltaPages {
  import opened Types
  import opened Chains
  import opened DeltaCodec
  import opened DeltaPool

  class ActiveDeltaPageCache {
    var pool: array<DeltaPage>
    var free: seq<nat>
    var cache: map<Bytes, nat>
    var offsets: map<Bytes, nat>
    var disk: Bytes
    /** The pages last stored. */
    ghost var last: map<Bytes, DeltaPage>

    function Contents(): Pool
      reads this, pool
    {
      Pool(pool[..], free, cache, offsets, disk)
    }

    ghost predicate Valid()
      reads this, pool
    {
      Inv(Contents(), last)
    }

    constructor (maxSize: nat)
      requires maxSize > 0
      ensures Valid() && fresh(pool) && Contents() == NewPool(maxSize) && last == map[]
    {
      var pages := new DeltaPage[maxSize](i => FRESH);
      pool := pages;
      var queue: seq<nat> := [];
      for i := 0 to maxSize
        invariant |queue| == i && forall x :: 0 <= x < i ==> queue[x] == x
        invariant forall x :: 0 <= x < maxSize ==> pages[x] == FRESH
      {
        queue := queue + [i];
      }
      free := queue;
      cache, offsets, disk, last := map[], map[], [], map[];
      NewPoolInv(maxSize);
      new;
      assert pool[..] == NewPool(maxSize).pages;
      assert free == NewPool(maxSize).free;
    }

    /** The pool object of a page id is cleared and queued as free. */
    method Release(pid: Bytes)
      requires pid in cache && cache[pid] < pool.Length
      modifies this, pool
      ensures pool == old(pool) && last == old(last) && Contents() == EvictOne(old(Contents()), pid)
    {
      var i := cache[pid];
      ghost var pages := pool[..];
      pool[i] := pool[i].(items := [], count := 0);
      free := free + [i];
      cache := cache - {pid};
      assert pool[..] == pages[i := pages[i].(items := [], count := 0)];
    }

    /** evictIfNeeded: whichever page the hash map lists first goes. */
    method EvictIfNeeded() returns (ghost victim: Bytes)
      requires Valid()
      modifies this, pool
      ensures Valid() && last == old(last) && pool == old(pool) && |cache| < pool.Length
      ensures if |old(cache)| >= pool.Length then victim in old(cache) &&
              Contents() == EvictOne(old(Contents()), victim)
              else Contents() == old(Contents())
    {
      ghost var s := Contents();
      victim := [];
      while |cache| >= pool.Length
        invariant pool == old(pool) && last == old(last) && Valid() && |cache| <= pool.Length
        invariant if |cache| < |s.cache| then |s.cache| >= |s.pages| && victim in s.cache &&
                  Contents() == EvictOne(s, victim)
                  else Contents() == s
        decreases |cache|
      {
        NotEmpty(cache);
        var pid :| pid in cache;
        victim := pid;
        RemoveSize(cache, pid);
        EvictKeeps(Contents(), last, pid);
        Release(pid);
      }
    }

    /** The free object at the head of the queue is filled from the file, or emptied. */
    method Refill(pid: Bytes) returns (i: nat)
      requires free != [] && free[0] < pool.Length && forall p :: p in offsets ==> Placed(Contents(), p)
      modifies this, pool
      ensures pool == old(pool) && last == old(last) && i == old(free[0])
      ensures Contents() == Fill(old(Contents()), pid)
    {
      i := free[0];
      ghost var s := Contents();
      var d := DeltaPage([], NO_PAGE, 0, pool[i].bcount);
      if pid in offsets {
        d := ReadFromDisk(pid);
      }
      pool[i] := d;
      free := free[1..];
      cache := cache[pid := i];
      assert pool[..] == s.pages[i := d];
    }

    /** ActiveDeltaPageCache::Get. The place is always found, and the page in it is the one
        last stored under the page id, whichever pages had to go. */
    method Get(pid: Bytes) returns (i: nat, ghost victim: Bytes)
      requires Valid()
      modifies this, pool
      ensures Valid() && last == old(last) && pool == old(pool)
      ensures |old(cache)| >= pool.Length && pid !in old(cache) ==> victim in old(cache)
      ensures DeltaPool.Get(old(Contents()), pid, victim) == Some((i, Contents()))
      ensures i < pool.Length && Settled(pool[..][i], LastOf(last, pid))
    {
      ghost var s := Contents();
      if pid in cache {
        GetKeeps(s, last, pid, pid);
        return cache[pid], pid;
      }
      victim := EvictIfNeeded();
      FillKeeps(Contents(), last, pid);
      i := Refill(pid);
      GetKeeps(s, last, pid, victim);
    }

    /** The page last stored under the page id, after a round trip through the file, and
        without its base count. */
    method ReadFromDisk(pid: Bytes) returns (d: DeltaPage)
      requires pid in offsets && Placed(Contents(), pid)
      ensures Holds(Contents(), last, pid) ==> pid in last && Reads(d, last[pid]) && d.bcount == 0
      ensures d == OnDisk(Contents(), pid, 0)
    {
      var data := disk[offsets[pid]..offsets[pid] + PAGE_SIZE];
      var parsed := ParseDelta(data);
      d := if parsed.Ok? then parsed.value.1 else FRESH;
    }

    method WriteToDisk(pid: Bytes, bytes: Bytes)
      requires |bytes| == PAGE_SIZE && forall p :: p in offsets ==> Placed(Contents(), p)
      modifies this
      ensures pool == old(pool) && free == old(free) && cache == old(cache) && last == old(last)
      ensures if pid in old(offsets) then
                var at := old(offsets)[pid];
                at + PAGE_SIZE <= |old(disk)| && offsets == old(offsets) &&
                disk == old(disk)[..at] + bytes + old(disk)[at + PAGE_SIZE..]
              else offsets == old(offsets)[pid := |old(disk)|] && disk == old(disk) + bytes
    {
      if pid in offsets {
        var at := offsets[pid];
        assert Placed(Contents(), pid);
        disk := disk[..at] + bytes + disk[at + PAGE_SIZE..];
      } else {
        offsets := offsets[pid := |disk|];
        disk := disk + bytes;
      }
    }

    /** Store: the page at its place is written to its own part of the file. The flag is
        false for the overflow error, after which the page has a place and no bytes. */
    method Store(pid: Bytes) returns (ok: bool)
      requires pid in cache && cache[pid] < pool.Length && forall p :: p in offsets ==> Placed(Contents(), p)
      modifies this
      ensures pool == old(pool) && free == old(free) && cache == old(cache) && last == old(last)
      ensures ok <==> DeltaPool.Store(old(Contents()), pid).Some?
      ensures ok ==> Contents() == DeltaPool.Store(old(Contents()), pid).value
    {
      var bytes := PrintDelta(pid, pool[cache[pid]]);
      if bytes.None? {
        if pid !in offsets {
          offsets := offsets[pid := |disk|];
        }
        return false;
      }
      WriteToDisk(pid, bytes.value);
      return true;
    }

    /** What a client does with a page it was handed: change it in place, then store it. */
    method ChangeAndStore(pid: Bytes, d: DeltaPage) returns (ok: bool)
      requires Valid() && pid in cache && DeltaFits(pid, d)
      modifies this, pool
      ensures pool == old(pool) && (ok <==> PrintDelta(pid, d).Some?)
      ensures ok ==> Valid() && last == old(last)[pid := d] && cache == old(cache)
      ensures ok ==> DeltaPool.Store(Change(old(Contents()), cache[pid], d), pid) == Some(Contents())
    {
      ghost var s := Contents();
      ghost var printed := PrintDelta(pid, d);
      if printed.Some? {
        StoreKeeps(s, last, pid, d);
      }
      pool[cache[pid]] := d;
      assert pool[..] == s.pages[cache[pid] := d];
      assert Contents() == Change(s, cache[pid], d);
      assert forall p :: p in offsets ==> Placed(s, p);
      ok := Store(pid);
      if ok {
        last := last[pid := d];
      }
    }
  }

  lemma NotEmpty(cache: map<Bytes, nat>)
    requires |cache| > 0
    ensures exists p :: p in cache
  {
    assert |cache.Keys| == |cache|;
    var p :| p in cache.Keys;
  }
}
