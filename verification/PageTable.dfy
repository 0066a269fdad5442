/** LSVPS's page table: a buffer of stored pages, flushed into files that carry index
    blocks and a lookup block; and the search through them. */
module PageTable {
  import opened Types

  /* ---- Page keys and their order ---- */

  /** tid is the same for every page of a store and is left out of the comparison. */
  datatype PageKey = PageKey(version: nat, delta: bool, pid: Path)

  /** std::string's order on page ids. */
  predicate LexLess(a: Path, b: Path) {
    if b == [] then false
    else if a == [] then true
    else a[0] < b[0] || (a[0] == b[0] && LexLess(a[1..], b[1..]))
  }

  predicate Less(a: PageKey, b: PageKey) {
    if a.version != b.version then a.version < b.version
    else if a.delta != b.delta then !a.delta
    else LexLess(a.pid, b.pid)
  }

  lemma {:induction false} LexTotal(a: Path, b: Path)
    ensures LexLess(a, b) || LexLess(b, a) || a == b
    ensures !(LexLess(a, b) && LexLess(b, a)) && !LexLess(a, a)
  {
    if a != [] && b != [] {
      LexTotal(a[1..], b[1..]);
      assert a == [a[0]] + a[1..] && b == [b[0]] + b[1..];
    }
    if a != [] { LexIrreflexive(a); }
  }

  lemma {:induction false} LexIrreflexive(a: Path)
    ensures !LexLess(a, a)
  {
    if a != [] { LexIrreflexive(a[1..]); }
  }

  lemma {:induction false} LexTransitive(a: Path, b: Path, c: Path)
    requires LexLess(a, b) && LexLess(b, c)
    ensures LexLess(a, c)
  {
    if a != [] && a[0] == b[0] && b[0] == c[0] {
      LexTransitive(a[1..], b[1..], c[1..]);
    }
  }

  /** PageKey's operator< is a strict total order. */
  lemma LessIsTotal(a: PageKey, b: PageKey)
    ensures Less(a, b) || Less(b, a) || a == b
    ensures !(Less(a, b) && Less(b, a)) && !Less(a, a)
  {
    LexTotal(a.pid, b.pid);
    LexIrreflexive(a.pid);
  }

  lemma LessTransitive(a: PageKey, b: PageKey, c: PageKey)
    requires Less(a, b) && Less(b, c)
    ensures Less(a, c)
  {
    if a.version == c.version && a.delta == c.delta { LexTransitive(a.pid, b.pid, c.pid); }
  }

  predicate AtMost(a: PageKey, b: PageKey) { Less(a, b) || a == b }

  /* ---- Pages, blocks and files ---- */

  datatype Entry<P> = Entry(key: PageKey, page: P)

  /** A key with a byte offset in the file. */
  datatype Mapping = Mapping(key: PageKey, location: nat)

  const MAPPINGS_PER_BLOCK: nat := 126
  const MAX_BUFFER: nat := 15876

  /** An index file: page i lies at offset i * PAGE_SIZE, then come the index blocks,
      then the lookup block. The two keys are what the in-memory list remembers of it. */
  datatype File<P> = File(minKey: PageKey, maxKey: PageKey, pages: seq<P>, blocks: seq<seq<Mapping>>,
      lookup: seq<Mapping>)

  datatype Table<P> = Table(buffer: seq<Entry<P>>, files: seq<File<P>>)

  /* ---- What a file must look like ---- */

  /** The mappings of all pages in order. */
  function Mappings<P>(entries: seq<Entry<P>>, from: nat): (m: seq<Mapping>)
    ensures |m| == |entries|
    ensures forall i :: 0 <= i < |entries| ==> m[i] == Mapping(entries[i].key, (from + i) * PAGE_SIZE)
  {
    seq(|entries|, i requires 0 <= i < |entries| => Mapping(entries[i].key, (from + i) * PAGE_SIZE))
  }

  function Concat<T>(blocks: seq<seq<T>>): seq<T> {
    if blocks == [] then [] else Concat(blocks[..|blocks| - 1]) + blocks[|blocks| - 1]
  }

  /** Every block but the last is full, and none is empty. */
  ghost predicate Chunked<T>(blocks: seq<seq<T>>) {
    (forall j :: 0 <= j < |blocks| ==> 0 < |blocks[j]| <= MAPPINGS_PER_BLOCK) &&
    (forall j :: 0 <= j < |blocks| - 1 ==> |blocks[j]| == MAPPINGS_PER_BLOCK)
  }

  /** The file holds exactly these entries. */
  ghost predicate Holds<P>(f: File<P>, entries: seq<Entry<P>>) {
    && entries != [] && f.minKey == entries[0].key && f.maxKey == entries[|entries| - 1].key
    && |f.pages| == |entries| && (forall i :: 0 <= i < |entries| ==> f.pages[i] == entries[i].page)
    && Chunked(f.blocks) && Concat(f.blocks) == Mappings(entries, 0)
    && |f.lookup| == |f.blocks|
    && forall j :: 0 <= j < |f.blocks| ==> f.lookup[j] == Mapping(f.blocks[j][0].key, (|entries| + j) * PAGE_SIZE)
  }

  ghost predicate StrictlySorted<P>(entries: seq<Entry<P>>) {
    forall i, j :: 0 <= i < j < |entries| ==> Less(entries[i].key, entries[j].key)
  }

  /* ---- Searching ---- */

  datatype Hit<P> = Miss | InBuffer(page: P) | InFile(page: P)

  /** The specification: scan all entries ever stored. */
  function LinearSearch<P>(entries: seq<Entry<P>>, key: PageKey): Option<P> {
    if entries == [] then None
    else if entries[0].key == key then Some(entries[0].page)
    else LinearSearch(entries[1..], key)
  }

  /** std::upper_bound on the lookup block: the number of entries not greater than the key. */
  function UpperBound(lookup: seq<Mapping>, key: PageKey): (u: nat)
    ensures u <= |lookup|
  {
    if lookup == [] || Less(key, lookup[0].key) then 0 else 1 + UpperBound(lookup[1..], key)
  }

  function FindMapping(block: seq<Mapping>, key: PageKey): Option<nat> {
    if block == [] then None
    else if block[0].key == key then Some(block[0].location)
    else FindMapping(block[1..], key)
  }

  /** readPageFromIndexFile: lookup block, index block, page. Offsets that name no block
      or page of the file, a failed read in the source, find nothing. */
  function ReadFromFile<P>(f: File<P>, key: PageKey): Option<P> {
    var u := UpperBound(f.lookup, key);
    if u == 0 then None
    else
      var b := f.lookup[u - 1].location / PAGE_SIZE;
      if !(|f.pages| <= b < |f.pages| + |f.blocks|) then None
      else match FindMapping(f.blocks[b - |f.pages|], key)
           case None => None
           case Some(location) =>
             if location / PAGE_SIZE < |f.pages| then Some(f.pages[location / PAGE_SIZE]) else None
  }

  /** The first file whose key range includes the key. */
  function FindFile<P>(files: seq<File<P>>, key: PageKey): Option<File<P>> {
    if files == [] then None
    else if AtMost(files[0].minKey, key) && AtMost(key, files[0].maxKey) then Some(files[0])
    else FindFile(files[1..], key)
  }

  function PageLookup<P>(t: Table<P>, key: PageKey): Hit<P> {
    if key.version == 0 then Miss
    else match LinearSearch(t.buffer, key)
         case Some(p) => InBuffer(p)
         case None =>
           match FindFile(t.files, key)
           case None => Miss
           case Some(f) => match ReadFromFile(f, key)
                           case Some(p) => InFile(p)
                           case None => Miss
  }

  function PageOf<P>(h: Hit<P>): Option<P> {
    match h
    case Miss => None
    case InBuffer(p) => Some(p)
    case InFile(p) => Some(p)
  }

  /* ---- The search through one file is exact ---- */

  lemma {:induction false} ConcatAt<T>(blocks: seq<seq<T>>, j: nat, i: nat)
    requires Chunked(blocks) && j < |blocks| && i < |blocks[j]|
    ensures j * MAPPINGS_PER_BLOCK + i < |Concat(blocks)|
    ensures Concat(blocks)[j * MAPPINGS_PER_BLOCK + i] == blocks[j][i]
    decreases |blocks|
  {
    var n := |blocks| - 1;
    var init := blocks[..n];
    ConcatLength(blocks);
    if j < n {
      ConcatAt(init, j, i);
    } else {
      ConcatFull(init);
    }
  }

  lemma {:induction false} ConcatFull<T>(blocks: seq<seq<T>>)
    requires forall j :: 0 <= j < |blocks| ==> |blocks[j]| == MAPPINGS_PER_BLOCK
    ensures |Concat(blocks)| == |blocks| * MAPPINGS_PER_BLOCK
    decreases |blocks|
  {
    if blocks != [] { ConcatFull(blocks[..|blocks| - 1]); }
  }

  lemma ConcatLength<T>(blocks: seq<seq<T>>)
    requires Chunked(blocks) && blocks != []
    ensures |Concat(blocks)| == (|blocks| - 1) * MAPPINGS_PER_BLOCK + |blocks[|blocks| - 1]|
  {
    ConcatFull(blocks[..|blocks| - 1]);
  }

  lemma {:induction false} UpperBoundIs(lookup: seq<Mapping>, key: PageKey)
    ensures var u := UpperBound(lookup, key);
            (forall j :: 0 <= j < u ==> !Less(key, lookup[j].key)) && (u < |lookup| ==> Less(key, lookup[u].key))
    decreases |lookup|
  {
    if lookup != [] && !Less(key, lookup[0].key) {
      UpperBoundIs(lookup[1..], key);
      var u := UpperBound(lookup, key);
      forall j | 0 <= j < u ensures !Less(key, lookup[j].key) {
        if j > 0 { assert lookup[j] == lookup[1..][j - 1]; }
      }
    }
  }

  lemma {:induction false} FindMappingIs(block: seq<Mapping>, key: PageKey)
    ensures match FindMapping(block, key)
            case Some(location) => exists i :: 0 <= i < |block| && block[i] == Mapping(key, location)
            case None => forall i :: 0 <= i < |block| ==> block[i].key != key
    decreases |block|
  {
    if block != [] && block[0].key != key {
      FindMappingIs(block[1..], key);
      match FindMapping(block[1..], key)
      case Some(location) =>
        var i :| 0 <= i < |block[1..]| && block[1..][i] == Mapping(key, location);
        assert block[i + 1] == Mapping(key, location);
      case None =>
        forall i | 0 <= i < |block| ensures block[i].key != key {
          if i > 0 { assert block[i] == block[1..][i - 1]; }
        }
    }
  }

  lemma {:induction false} LinearSearchIs<P>(entries: seq<Entry<P>>, key: PageKey)
    ensures match LinearSearch(entries, key)
            case Some(p) => exists i :: 0 <= i < |entries| && entries[i] == Entry(key, p)
            case None => forall i :: 0 <= i < |entries| ==> entries[i].key != key
    decreases |entries|
  {
    if entries != [] && entries[0].key != key {
      LinearSearchIs(entries[1..], key);
      match LinearSearch(entries[1..], key)
      case Some(p) =>
        var i :| 0 <= i < |entries[1..]| && entries[1..][i] == Entry(key, p);
        assert entries[i + 1] == Entry(key, p);
      case None =>
        forall i | 0 <= i < |entries| ensures entries[i].key != key {
          if i > 0 { assert entries[i] == entries[1..][i - 1]; }
        }
    }
  }

  /** Entry i of a file sits in block i / 126 at position i % 126. */
  lemma MappingAt<P>(f: File<P>, entries: seq<Entry<P>>, i: nat)
    requires Holds(f, entries) && i < |entries|
    ensures var j, x := i / MAPPINGS_PER_BLOCK, i % MAPPINGS_PER_BLOCK;
            j < |f.blocks| && x < |f.blocks[j]| && f.blocks[j][x] == Mapping(entries[i].key, i * PAGE_SIZE)
  {
    var j, x := i / MAPPINGS_PER_BLOCK, i % MAPPINGS_PER_BLOCK;
    assert f.blocks != [];
    ConcatLength(f.blocks);
    ConcatAt(f.blocks, j, x);
  }

  /** Position x of block j holds entry j * 126 + x. */
  lemma BlockAt<P>(f: File<P>, entries: seq<Entry<P>>, j: nat, x: nat)
    requires Holds(f, entries) && j < |f.blocks| && x < |f.blocks[j]|
    ensures var i := j * MAPPINGS_PER_BLOCK + x;
            i < |entries| && f.blocks[j][x] == Mapping(entries[i].key, i * PAGE_SIZE)
  {
    ConcatAt(f.blocks, j, x);
  }

  /** The lookup block sends a key that the file holds to the block that holds it. */
  lemma LookupRight<P>(f: File<P>, entries: seq<Entry<P>>, i: nat)
    requires Holds(f, entries) && StrictlySorted(entries) && i < |entries|
    ensures UpperBound(f.lookup, entries[i].key) == i / MAPPINGS_PER_BLOCK + 1
  {
    var key, j := entries[i].key, i / MAPPINGS_PER_BLOCK;
    var u := UpperBound(f.lookup, key);
    UpperBoundIs(f.lookup, key);
    MappingAt(f, entries, i);
    BlockAt(f, entries, j, 0);
    LessIsTotal(entries[j * MAPPINGS_PER_BLOCK].key, key);
    if u <= j {
      BlockAt(f, entries, u, 0);
      FirstsSorted(entries, u, j, i);
      LessIsTotal(entries[u * MAPPINGS_PER_BLOCK].key, key);
    }
    if u > j + 1 {
      BlockAt(f, entries, u - 1, 0);
    }
  }

  lemma FirstsSorted<P>(entries: seq<Entry<P>>, u: nat, j: nat, i: nat)
    requires StrictlySorted(entries) && u <= j && j * MAPPINGS_PER_BLOCK <= i < |entries|
    ensures AtMost(entries[u * MAPPINGS_PER_BLOCK].key, entries[i].key)
  {
    assert u * MAPPINGS_PER_BLOCK <= i;
  }

  /** The three-step search of a file finds a key exactly when the file holds it. */
  lemma ReadFromFileExact<P>(f: File<P>, entries: seq<Entry<P>>, key: PageKey)
    requires Holds(f, entries) && StrictlySorted(entries)
    ensures ReadFromFile(f, key) == LinearSearch(entries, key)
  {
    LinearSearchIs(entries, key);
    match LinearSearch(entries, key)
    case Some(p) =>
      var i :| 0 <= i < |entries| && entries[i] == Entry(key, p);
      ReadsEntry(f, entries, i);
    case None => ReadsNothing(f, entries, key);
  }

  lemma ReadsEntry<P>(f: File<P>, entries: seq<Entry<P>>, i: nat)
    requires Holds(f, entries) && StrictlySorted(entries) && i < |entries|
    ensures ReadFromFile(f, entries[i].key) == Some(entries[i].page)
  {
    var key, j := entries[i].key, i / MAPPINGS_PER_BLOCK;
    LookupRight(f, entries, i);
    MappingAt(f, entries, i);
    FindMappingIs(f.blocks[j], key);
    match FindMapping(f.blocks[j], key)
    case Some(location) =>
      var x :| 0 <= x < |f.blocks[j]| && f.blocks[j][x] == Mapping(key, location);
      BlockAt(f, entries, j, x);
      var i' := j * MAPPINGS_PER_BLOCK + x;
      LessIsTotal(key, key);
      assert i' == i;
    case None =>
  }

  lemma ReadsNothing<P>(f: File<P>, entries: seq<Entry<P>>, key: PageKey)
    requires Holds(f, entries) && forall i :: 0 <= i < |entries| ==> entries[i].key != key
    ensures ReadFromFile(f, key) == None
  {
    var u := UpperBound(f.lookup, key);
    if u > 0 {
      FindMappingIs(f.blocks[u - 1], key);
      match FindMapping(f.blocks[u - 1], key)
      case Some(location) =>
        var x :| 0 <= x < |f.blocks[u - 1]| && f.blocks[u - 1][x] == Mapping(key, location);
        BlockAt(f, entries, u - 1, x);
      case None =>
    }
  }

  /* ---- Storing and flushing ---- */

  /** Consecutive blocks of 126 mappings. */
  function Chunk(m: seq<Mapping>): seq<seq<Mapping>> {
    if m == [] then []
    else if |m| <= MAPPINGS_PER_BLOCK then [m]
    else [m[..MAPPINGS_PER_BLOCK]] + Chunk(m[MAPPINGS_PER_BLOCK..])
  }

  function LookupOf(blocks: seq<seq<Mapping>>, first: nat): (lookup: seq<Mapping>)
    requires forall j :: 0 <= j < |blocks| ==> blocks[j] != []
    ensures |lookup| == |blocks|
  {
    seq(|blocks|, j requires 0 <= j < |blocks| && blocks[j] != [] => Mapping(blocks[j][0].key, (first + j) * PAGE_SIZE))
  }

  lemma {:induction false} ConcatCons<T>(x: seq<T>, blocks: seq<seq<T>>)
    ensures Concat([x] + blocks) == x + Concat(blocks)
    decreases |blocks|
  {
    var all := [x] + blocks;
    if blocks == [] {
      assert all[..0] == [] && Concat(all) == Concat([]) + x;
    } else {
      var n := |blocks| - 1;
      assert all[..n + 1] == [x] + blocks[..n] && all[n + 1] == blocks[n];
      ConcatCons(x, blocks[..n]);
      assert (x + Concat(blocks[..n])) + blocks[n] == x + (Concat(blocks[..n]) + blocks[n]);
    }
  }

  lemma {:induction false} ChunkIs(m: seq<Mapping>)
    ensures Chunked(Chunk(m)) && Concat(Chunk(m)) == m && (m != [] ==> Chunk(m) != [])
    decreases |m|
  {
    if m == [] {
    } else if |m| <= MAPPINGS_PER_BLOCK {
      assert [m][..0] == [];
      assert Concat([m]) == Concat([]) + m;
    } else {
      var x, rest := m[..MAPPINGS_PER_BLOCK], m[MAPPINGS_PER_BLOCK..];
      ChunkIs(rest);
      ConcatCons(x, Chunk(rest));
    }
  }

  function MakeFile<P>(entries: seq<Entry<P>>): File<P>
    requires entries != []
  {
    var blocks := Chunk(Mappings(entries, 0));
    ChunkIs(Mappings(entries, 0));
    File(entries[0].key, entries[|entries| - 1].key,
         seq(|entries|, i requires 0 <= i < |entries| => entries[i].page),
         blocks, LookupOf(blocks, |entries|))
  }

  lemma MakeFileHolds<P>(entries: seq<Entry<P>>)
    requires entries != []
    ensures Holds(MakeFile(entries), entries)
  {
    ChunkIs(Mappings(entries, 0));
  }

  /** MemIndexTable::Flush. */
  function Flush<P>(t: Table<P>): Table<P> {
    if t.buffer == [] then t else Table([], t.files + [MakeFile(t.buffer)])
  }

  /** LSVPS::StorePage: buffer the page, flush a full buffer. */
  function Store<P>(t: Table<P>, e: Entry<P>): Table<P> {
    var t' := t.(buffer := t.buffer + [e]);
    if |t'.buffer| >= MAX_BUFFER then Flush(t') else t'
  }

  function StoreAll<P>(t: Table<P>, entries: seq<Entry<P>>): Table<P>
    decreases |entries|
  {
    if entries == [] then t else StoreAll(Store(t, entries[0]), entries[1..])
  }

  /* ---- All entries of a table, and the invariant ---- */

  /** The entries a file holds, as its index blocks list them. */
  function EntriesOf<P>(f: File<P>): seq<Entry<P>> {
    var m := Concat(f.blocks);
    if |m| == |f.pages| then seq(|m|, i requires 0 <= i < |m| && |m| == |f.pages| => Entry(m[i].key, f.pages[i]))
        else []
  }

  lemma HoldsEntries<P>(f: File<P>, entries: seq<Entry<P>>)
    requires Holds(f, entries)
    ensures EntriesOf(f) == entries
  {
    var es := EntriesOf(f);
    assert |es| == |entries|;
    forall i | 0 <= i < |es| ensures es[i] == entries[i] {
      assert Concat(f.blocks)[i] == Mapping(entries[i].key, (0 + i) * PAGE_SIZE);
    }
  }

  function FileEntries<P>(files: seq<File<P>>): seq<Entry<P>> {
    if files == [] then [] else EntriesOf(files[0]) + FileEntries(files[1..])
  }

  /** Everything ever stored, oldest first. */
  function All<P>(t: Table<P>): seq<Entry<P>> {
    FileEntries(t.files) + t.buffer
  }

  /** Made by flushing a buffer. */
  ghost predicate IsFlushed<P>(f: File<P>) {
    0 < |EntriesOf(f)| <= MAX_BUFFER && f == MakeFile(EntriesOf(f))
  }

  ghost predicate FilesHold<P>(files: seq<File<P>>) {
    forall j :: 0 <= j < |files| ==> Holds(files[j], EntriesOf(files[j])) && IsFlushed(files[j])
  }

  /** Stored pages are strictly sorted through the files in order and then the buffer. */
  ghost predicate TableInv<P>(t: Table<P>) {
    FilesHold(t.files) && StrictlySorted(All(t)) && |t.buffer| < MAX_BUFFER
  }

  lemma SortedParts<P>(a: seq<Entry<P>>, b: seq<Entry<P>>)
    requires StrictlySorted(a + b)
    ensures StrictlySorted(a) && StrictlySorted(b)
    ensures forall i, j :: 0 <= i < |a| && 0 <= j < |b| ==> Less(a[i].key, b[j].key)
  {
    var c := a + b;
    assert forall i :: 0 <= i < |a| ==> c[i] == a[i];
    assert forall j :: 0 <= j < |b| ==> c[|a| + j] == b[j];
    forall i, j | 0 <= i < |a| && 0 <= j < |b| ensures Less(a[i].key, b[j].key) {
      assert Less(c[i].key, c[|a| + j].key);
    }
    forall i, j | 0 <= i < j < |b| ensures Less(b[i].key, b[j].key) {
      assert Less(c[|a| + i].key, c[|a| + j].key);
    }
  }

  lemma {:induction false} LinearSearchConcat<P>(a: seq<Entry<P>>, b: seq<Entry<P>>, key: PageKey)
    ensures LinearSearch(a + b, key) == if LinearSearch(a, key).Some? then LinearSearch(a, key)
            else LinearSearch(b, key)
    decreases |a|
  {
    if a == [] {
      assert a + b == b;
    } else {
      assert (a + b)[0] == a[0] && (a + b)[1..] == a[1..] + b;
      LinearSearchConcat(a[1..], b, key);
    }
  }

  lemma NoneFound<P>(entries: seq<Entry<P>>, key: PageKey)
    requires forall i :: 0 <= i < |entries| ==> entries[i].key != key
    ensures LinearSearch(entries, key) == None
  {
    LinearSearchIs(entries, key);
  }

  lemma AbsentAfter<P>(a: seq<Entry<P>>, b: seq<Entry<P>>, key: PageKey, i: nat)
    requires forall x, y :: 0 <= x < |a| && 0 <= y < |b| ==> Less(a[x].key, b[y].key)
    requires i < |a| && AtMost(key, a[i].key)
    ensures LinearSearch(b, key) == None
  {
    forall y | 0 <= y < |b| ensures b[y].key != key {
      LessIsTotal(a[i].key, key);
      assert Less(a[i].key, b[y].key);
    }
    NoneFound(b, key);
  }

  lemma OutOfRange<P>(f: File<P>, key: PageKey)
    requires Holds(f, EntriesOf(f)) && StrictlySorted(EntriesOf(f))
    requires !(AtMost(f.minKey, key) && AtMost(key, f.maxKey))
    ensures LinearSearch(EntriesOf(f), key) == None
  {
    var es := EntriesOf(f);
    forall i | 0 <= i < |es| ensures es[i].key != key {
    }
    NoneFound(es, key);
  }

  /** The first file whose range includes a key is the only one that can hold it. */
  lemma {:induction false} FilesExact<P>(files: seq<File<P>>, key: PageKey)
    requires FilesHold(files) && StrictlySorted(FileEntries(files))
    ensures LinearSearch(FileEntries(files), key) ==
            match FindFile(files, key) case Some(f) => ReadFromFile(f, key) case None => None
    decreases |files|
  {
    if files != [] {
      var f, es, rest := files[0], EntriesOf(files[0]), FileEntries(files[1..]);
      SortedParts(es, rest);
      LinearSearchConcat(es, rest, key);
      if AtMost(f.minKey, key) && AtMost(key, f.maxKey) {
        AbsentAfter(es, rest, key, |es| - 1);
        ReadFromFileExact(f, es, key);
      } else {
        OutOfRange(f, key);
        FilesExact(files[1..], key);
      }
    }
  }

  /** pageLookup agrees with a scan of everything ever stored. */
  lemma PageLookupExact<P>(t: Table<P>, key: PageKey)
    requires TableInv(t)
    ensures PageOf(PageLookup(t, key)) == if key.version == 0 then None else LinearSearch(All(t), key)
  {
    var es := FileEntries(t.files);
    SortedParts(es, t.buffer);
    LinearSearchConcat(es, t.buffer, key);
    FilesExact(t.files, key);
    LinearSearchIs(t.buffer, key);
    if LinearSearch(t.buffer, key).Some? && LinearSearch(es, key).Some? {
      LinearSearchIs(es, key);
      var i :| 0 <= i < |es| && es[i].key == key;
      var j :| 0 <= j < |t.buffer| && t.buffer[j].key == key;
      LessIsTotal(key, key);
    }
  }

  lemma {:induction false} FileEntriesSnoc<P>(files: seq<File<P>>, f: File<P>)
    ensures FileEntries(files + [f]) == FileEntries(files) + EntriesOf(f)
    decreases |files|
  {
    if files == [] {
      assert files + [f] == [f];
      assert [f][1..] == [];
      assert FileEntries([f]) == EntriesOf(f) + FileEntries([]);
    } else {
      assert (files + [f])[0] == files[0] && (files + [f])[1..] == files[1..] + [f];
      FileEntriesSnoc(files[1..], f);
    }
  }

  /** Flushing moves pages but stores the same things. */
  lemma FlushKeeps<P>(t: Table<P>)
    requires FilesHold(t.files) && StrictlySorted(All(t)) && |t.buffer| <= MAX_BUFFER
    ensures TableInv(Flush(t)) || t.buffer == []
    ensures All(Flush(t)) == All(t)
  {
    if t.buffer != [] {
      var f := MakeFile(t.buffer);
      MakeFileHolds(t.buffer);
      HoldsEntries(f, t.buffer);
      FileEntriesSnoc(t.files, f);
      assert All(Flush(t)) == FileEntries(t.files + [f]) + [] == All(t);
    }
  }

  /** What a file holds the table holds. */
  lemma {:induction false} FileEntriesHave<P>(files: seq<File<P>>, j: nat, e: Entry<P>)
    requires j < |files| && e in EntriesOf(files[j])
    ensures e in FileEntries(files)
    decreases |files|
  {
    if j > 0 { FileEntriesHave(files[1..], j - 1, e); }
  }

  ghost predicate NewerThanAll<P>(t: Table<P>, key: PageKey) {
    forall i :: 0 <= i < |All(t)| ==> Less(All(t)[i].key, key)
  }

  lemma StoreKeeps<P>(t: Table<P>, e: Entry<P>)
    requires TableInv(t) && NewerThanAll(t, e.key)
    ensures TableInv(Store(t, e)) && All(Store(t, e)) == All(t) + [e]
  {
    var t' := t.(buffer := t.buffer + [e]);
    assert All(t') == All(t) + [e];
    FlushKeeps(t');
  }

  /** A commit's pages, in page key order and newer than everything stored, are appended,
      whether or not the buffer is flushed on the way. */
  lemma {:induction false} StoreAllKeeps<P>(t: Table<P>, entries: seq<Entry<P>>)
    requires TableInv(t) && StrictlySorted(All(t) + entries)
    ensures TableInv(StoreAll(t, entries)) && All(StoreAll(t, entries)) == All(t) + entries
    decreases |entries|
  {
    if entries == [] {
      assert All(t) + entries == All(t);
    } else {
      SortedParts(All(t), entries);
      StoreKeeps(t, entries[0]);
      assert All(t) + [entries[0]] + entries[1..] == All(t) + entries;
      StoreAllKeeps(Store(t, entries[0]), entries[1..]);
    }
  }

  /** Files are made of full buffers only: what is stored adds one for each MAX_BUFFER pages,
      and the rest stays in the buffer. */
  lemma {:induction false} StoreAllFills<P>(t: Table<P>, entries: seq<Entry<P>>)
    requires |t.buffer| < MAX_BUFFER
    ensures var t', n := StoreAll(t, entries), |t.buffer| + |entries|;
            |t'.files| == |t.files| + n / MAX_BUFFER && |t'.buffer| == n % MAX_BUFFER && t.files <= t'.files &&
            forall j :: |t.files| <= j < |t'.files| ==> |t'.files[j].pages| == MAX_BUFFER
    decreases |entries|
  {
    if entries != [] {
      StoreAllFills(Store(t, entries[0]), entries[1..]);
    }
  }

  /* ---- Runs of commits and flushes ---- */

  /** A commit stores what page_cache_ holds: pages of one version in key order. */
  datatype Op<P> = Commit(version: nat, entries: seq<Entry<P>>) | FlushAll

  ghost predicate Enabled<P>(t: Table<P>, op: Op<P>) {
    op.Commit? ==>
      StrictlySorted(op.entries) && (forall i :: 0 <= i < |op.entries| ==> op.entries[i].key.version == op.version) &&
      forall i :: 0 <= i < |All(t)| ==> All(t)[i].key.version < op.version
  }

  function Apply<P>(t: Table<P>, op: Op<P>): Table<P> {
    match op
    case Commit(_, entries) => StoreAll(t, entries)
    case FlushAll => Flush(t)
  }

  function StoredBy<P>(op: Op<P>): seq<Entry<P>> {
    if op.Commit? then op.entries else []
  }

  /** Over any run of commits and flushes, a lookup finds the one page stored under its key. */
  lemma ApplyKeeps<P>(t: Table<P>, op: Op<P>, key: PageKey)
    requires TableInv(t) && Enabled(t, op)
    ensures TableInv(Apply(t, op)) && All(Apply(t, op)) == All(t) + StoredBy(op)
    ensures PageOf(PageLookup(Apply(t, op), key)) == if key.version == 0 then None
            else LinearSearch(All(t) + StoredBy(op), key)
  {
    match op
    case Commit(w, entries) =>
      StoreAllKeeps(t, entries);
      PageLookupExact(Apply(t, op), key);
    case FlushAll =>
      assert All(t) + [] == All(t);
      FlushKeeps(t);
      PageLookupExact(Apply(t, op), key);
  }
}
