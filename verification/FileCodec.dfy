/** An index file in bytes: every block that a flush writes fits and reads back. */
module FileCodec {
  import opened Types
  import opened Chains
  import opened PageTable
  import opened Fields
  import opened BlockCodec

  function LineOf(m: Mapping): Line {
    Line(Key(m.key.version, m.key.delta), HexString(m.key.pid), m.location)
  }

  function LinesOf(block: seq<Mapping>): (lines: seq<Line>)
    ensures |lines| == |block| && forall i :: 0 <= i < |block| ==> lines[i] == LineOf(block[i])
  {
    seq(|block|, i requires 0 <= i < |block| => LineOf(block[i]))
  }

  /** One block for every 126 mappings begun. */
  lemma {:induction false} ChunkCount(m: seq<Mapping>)
    ensures |m| <= 126 * |Chunk(m)| < |m| + 126
    decreases |m|
  {
    if |m| > MAPPINGS_PER_BLOCK { ChunkCount(m[MAPPINGS_PER_BLOCK..]); }
  }

  /** So a full buffer of 126 squared pages needs exactly 126 lookup entries. */
  lemma LookupCount(m: seq<Mapping>)
    ensures |Chunk(m)| <= BLOCK_ENTRIES <==> |m| <= MAX_BUFFER
  {
    ChunkCount(m);
  }

  /** What can be written of a mapping. */
  predicate Writable(m: Mapping) {
    m.key.version < Pow256(8) && |m.key.pid| <= 64 && m.location < Pow256(8)
  }

  lemma WritableLines(block: seq<Mapping>)
    requires |block| <= BLOCK_ENTRIES && forall i :: 0 <= i < |block| ==> Writable(block[i])
    ensures forall i :: 0 <= i < |block| ==> LineFits(LinesOf(block)[i])
    ensures 4 + LinesSize(LinesOf(block)) <= BLOCK_SIZE
  {
    forall i | 0 <= i < |block| ensures LineFits(LinesOf(block)[i]) && |LinesOf(block)[i].pid| <= 64 {
      assert Writable(block[i]);
    }
    ShortPidsFit(LinesOf(block));
  }

  lemma {:induction false} ChunkMembers(m: seq<Mapping>)
    requires forall i :: 0 <= i < |m| ==> Writable(m[i])
    ensures forall j, i :: 0 <= j < |Chunk(m)| && 0 <= i < |Chunk(m)[j]| ==> Writable(Chunk(m)[j][i])
    decreases |m|
  {
    if |m| > MAPPINGS_PER_BLOCK {
      var rest := m[MAPPINGS_PER_BLOCK..];
      ChunkMembers(rest);
      forall j, i | 0 <= j < |Chunk(m)| && 0 <= i < |Chunk(m)[j]| ensures Writable(Chunk(m)[j][i]) {
        if j > 0 { assert Chunk(m)[j] == Chunk(rest)[j - 1]; }
      }
    }
  }

  /** A block of the file is written and reads back as it was. */
  ghost predicate BlockSurvives(block: seq<Mapping>) {
    PrintIndexBlock(LinesOf(block)).Some? && |PrintIndexBlock(LinesOf(block)).value| == PAGE_SIZE &&
    ParseIndexBlock(PrintIndexBlock(LinesOf(block)).value) == Some(LinesOf(block))
  }

  ghost predicate LookupSurvives(lookup: seq<Mapping>) {
    PrintLookupBlock(LinesOf(lookup)).Some? && |PrintLookupBlock(LinesOf(lookup)).value| == PAGE_SIZE &&
    ParseLookupBlock(PrintLookupBlock(LinesOf(lookup)).value) == Some(LinesOf(lookup))
  }

  /** Everything a flush writes about the pages of a buffer fits and reads back: each index
      block, and the lookup block with an entry for each of them. */
  lemma FileSurvives<P>(entries: seq<Entry<P>>)
    requires 0 < |entries| <= MAX_BUFFER
    requires forall i :: 0 <= i < |entries| ==> entries[i].key.version < Pow256(8) && |entries[i].key.pid| <= 64
    ensures var f := MakeFile(entries);
            (forall j :: 0 <= j < |f.blocks| ==> BlockSurvives(f.blocks[j])) && LookupSurvives(f.lookup)
  {
    var m, f := Mappings(entries, 0), MakeFile(entries);
    Widths();
    LookupCount(m);
    ChunkIs(m);
    ChunkMembers(m);
    forall j | 0 <= j < |f.blocks| ensures BlockSurvives(f.blocks[j]) {
      WritableLines(f.blocks[j]);
      IndexBlockRoundTrip(LinesOf(f.blocks[j]));
    }
    forall j | 0 <= j < |f.lookup| ensures Writable(f.lookup[j]) {
      assert Writable(f.blocks[j][0]);
      assert (|entries| + j) * PAGE_SIZE <= 16002 * PAGE_SIZE;
    }
    WritableLines(f.lookup);
    LookupBlockRoundTrip(LinesOf(f.lookup));
  }
}
