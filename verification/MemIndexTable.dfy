/** The page table as the mutable object of LSVPS: a vector of buffered pages and the list
    of index files, with the loops that fill index blocks and search them. */
module MemIndexTable {
  import opened Types
  import opened PageTable

  class Table<P(==)> {
    var buffer: seq<Entry<P>>
    var files: seq<File<P>>

    function Contents(): PageTable.Table<P>
      reads this
    {
      PageTable.Table(buffer, files)
    }

    constructor ()
      ensures Contents() == PageTable.Table([], []) && TableInv(Contents())
    {
      buffer := [];
      files := [];
    }

    /** LSVPS::StorePage. */
    method StorePage(e: Entry<P>)
      modifies this
      ensures Contents() == Store(old(Contents()), e)
      ensures TableInv(old(Contents())) && NewerThanAll(old(Contents()), e.key) ==>
                TableInv(Contents()) && All(Contents()) == All(old(Contents())) + [e]
    {
      ghost var before := Contents();
      buffer := buffer + [e];
      if |buffer| >= MAX_BUFFER {
        FlushBuffer();
      }
      if TableInv(before) && NewerThanAll(before, e.key) {
        StoreKeeps(before, e);
      }
    }

    /** MemIndexTable::Flush: index blocks of 126 mappings, one lookup entry for each. */
    method FlushBuffer()
      modifies this
      ensures Contents() == Flush(old(Contents()))
    {
      if buffer == [] {
        return;
      }
      var f := BuildFile(buffer);
      files := files + [f];
      buffer := [];
    }

    static method BuildFile(entries: seq<Entry<P>>) returns (f: File<P>)
      requires entries != []
      ensures f == MakeFile(entries)
    {
      var blocks := BuildBlocks(entries);
      ChunkIs(Mappings(entries, 0));
      var lookup := WriteLookup(blocks, |entries|);
      var pages := PagesOf(entries);
      f := File(entries[0].key, entries[|entries| - 1].key, pages, blocks, lookup);
    }

    static method BuildBlocks(entries: seq<Entry<P>>) returns (blocks: seq<seq<Mapping>>)
      requires entries != []
      ensures blocks == Chunk(Mappings(entries, 0))
    {
      ghost var m := Mappings(entries, 0);
      blocks := [];
      var current: seq<Mapping> := [];
      var location := 0;
      assert [] + m[0..] == m;
      for i := 0 to |entries|
        invariant location == i * PAGE_SIZE
        invariant |current| <= MAPPINGS_PER_BLOCK && (i > 0 ==> current != [])
        invariant Chunk(m) == blocks + Chunk(current + m[i..])
      {
        if |current| >= MAPPINGS_PER_BLOCK {
          StartBlock(blocks, current, m[i..]);
          blocks := blocks + [current];
          current := [];
        }
        NextMapping(current, m, i);
        current := current + [Mapping(entries[i].key, location)];
        location := location + PAGE_SIZE;
      }
      assert current + m[|entries|..] == current;
      blocks := blocks + [current];
    }

    static method WriteLookup(blocks: seq<seq<Mapping>>, first: nat) returns (lookup: seq<Mapping>)
      requires forall j :: 0 <= j < |blocks| ==> blocks[j] != []
      ensures lookup == LookupOf(blocks, first)
    {
      lookup := [];
      var offset := first * PAGE_SIZE;
      for j := 0 to |blocks|
        invariant offset == (first + j) * PAGE_SIZE
        invariant |lookup| == j && forall x :: 0 <= x < j ==>
                  lookup[x] == Mapping(blocks[x][0].key, (first + x) * PAGE_SIZE)
      {
        lookup := lookup + [Mapping(blocks[j][0].key, offset)];
        offset := offset + PAGE_SIZE;
      }
    }

    static method PagesOf(entries: seq<Entry<P>>) returns (pages: seq<P>)
      ensures |pages| == |entries| && forall i :: 0 <= i < |entries| ==> pages[i] == entries[i].page
    {
      pages := [];
      for i := 0 to |entries|
        invariant |pages| == i && forall x :: 0 <= x < i ==> pages[x] == entries[x].page
      {
        pages := pages + [entries[i].page];
      }
    }

    /** LSVPS::pageLookup: the buffer first, then the first file whose range fits. */
    method Lookup(key: PageKey) returns (hit: Hit<P>)
      ensures hit == PageLookup(Contents(), key)
      ensures TableInv(Contents()) ==>
                PageOf(hit) == if key.version == 0 then None else LinearSearch(All(Contents()), key)
    {
      if TableInv(Contents()) {
        PageLookupExact(Contents(), key);
      }
      if key.version == 0 {
        return Miss;
      }
      for i := 0 to |buffer|
        invariant LinearSearch(buffer, key) == LinearSearch(buffer[i..], key)
      {
        assert buffer[i..][0] == buffer[i] && buffer[i..][1..] == buffer[i + 1..];
        if buffer[i].key == key {
          return InBuffer(buffer[i].page);
        }
      }
      for j := 0 to |files|
        invariant FindFile(files, key) == FindFile(files[j..], key)
      {
        assert files[j..][0] == files[j] && files[j..][1..] == files[j + 1..];
        if AtMost(files[j].minKey, key) && AtMost(key, files[j].maxKey) {
          var found := ReadFile(files[j], key);
          return if found.Some? then InFile(found.value) else Miss;
        }
      }
      return Miss;
    }

    /** LSVPS::readPageFromIndexFile. */
    static method ReadFile(f: File<P>, key: PageKey) returns (page: Option<P>)
      ensures page == ReadFromFile(f, key)
    {
      var u := 0;
      while u < |f.lookup| && !Less(key, f.lookup[u].key)
        invariant u <= |f.lookup|
        invariant UpperBound(f.lookup, key) == u + UpperBound(f.lookup[u..], key)
      {
        u := u + 1;
      }
      if u == 0 {
        return None;
      }
      var b := f.lookup[u - 1].location / PAGE_SIZE;
      if !(|f.pages| <= b < |f.pages| + |f.blocks|) {
        return None;
      }
      var block := f.blocks[b - |f.pages|];
      for i := 0 to |block|
        invariant FindMapping(block, key) == FindMapping(block[i..], key)
      {
        assert block[i..][0] == block[i] && block[i..][1..] == block[i + 1..];
        if block[i].key == key {
          var x := block[i].location / PAGE_SIZE;
          return if x < |f.pages| then Some(f.pages[x]) else None;
        }
      }
      return None;
    }
  }

  lemma StartBlock(blocks: seq<seq<Mapping>>, current: seq<Mapping>, rest: seq<Mapping>)
    requires |current| == MAPPINGS_PER_BLOCK && rest != []
    ensures blocks + Chunk(current + rest) == (blocks + [current]) + Chunk([] + rest)
  {
    assert (current + rest)[..MAPPINGS_PER_BLOCK] == current && (current + rest)[MAPPINGS_PER_BLOCK..] == rest;
    assert [] + rest == rest;
  }

  lemma NextMapping(current: seq<Mapping>, m: seq<Mapping>, i: nat)
    requires i < |m|
    ensures current + m[i..] == (current + [m[i]]) + m[i + 1..]
  {
  }
}
