/** The byte formats of page keys, index blocks and lookup blocks. */
module BlockCodec {
  import opened Types
  import opened Chains
  import opened Fields
  import opened DeltaCodec

  const BLOCK_SIZE: nat := 12288
  const MAX_PID: nat := 256
  const BLOCK_ENTRIES: nat := 126
  const MAX_LOOKUP_ENTRIES: nat := 10000

  /** A page key, its page id as characters, and an offset in the file. */
  datatype Line = Line(key: Key, pid: Bytes, location: nat)

  function PrintLine(e: Line, tail: Bytes): (s: Bytes)
    ensures |s| == 33 + |e.pid| + |tail|
  {
    PrintKey(e.key, e.pid, PrintInt(e.location, 8) + tail)
  }

  /** PageKey::Deserialize refuses page ids of more than 256 characters. */
  function ParseLine(s: Bytes): Parsed<Line> {
    var (k, s1) :- ParseKey(s);
    if |k.1| > MAX_PID then Fail
    else
      var (location, s2) :- ParseInt(s1, 8);
      Ok(Line(k.0, k.1, location), s2)
  }

  predicate LineFits(e: Line) {
    e.key.version < Pow256(8) && |e.pid| <= MAX_PID && e.location < Pow256(8)
  }

  function Unchanged(e: Line): Line { e }

  lemma ParseLineInverts(e: Line, tail: Bytes)
    requires LineFits(e)
    ensures ParseLine(PrintLine(e, tail)) == Ok(e, tail)
  {
    Widths();
    ParseKeyInverts(e.key, e.pid, PrintInt(e.location, 8) + tail);
    ParseIntInverts(e.location, 8, tail);
  }

  lemma PrintLineTail(e: Line, mid: Bytes, tail: Bytes)
    ensures PrintLine(e, mid + tail) == PrintLine(e, mid) + tail
  {
    assert PrintInt(e.location, 8) + (mid + tail) == PrintInt(e.location, 8) + mid + tail;
    PrintKeyTail(e.key, e.pid, PrintInt(e.location, 8) + mid, tail);
  }

  /* ---- Blocks ---- */

  function LinesSize(lines: seq<Line>): nat {
    if lines == [] then 0 else 33 + |lines[0].pid| + LinesSize(lines[1..])
  }

  function PrintLines(lines: seq<Line>): Bytes {
    PrintInt(|lines|, 4) + PrintMany(PrintLine, lines, [])
  }

  function Padded(body: Bytes): Option<Bytes> {
    if |body| > BLOCK_SIZE then None else Some(body + Zeros(BLOCK_SIZE - |body|))
  }

  /** IndexBlock::SerializeTo. */
  function PrintIndexBlock(lines: seq<Line>): Option<Bytes> {
    if |lines| > BLOCK_ENTRIES then None else Padded(PrintLines(lines))
  }

  /** LookupBlock::SerializeTo. */
  function PrintLookupBlock(lines: seq<Line>): Option<Bytes> {
    if |lines| >= Pow256(4) then None else Padded(PrintLines(lines))
  }

  function ParseLines(s: Bytes, atLeast: nat, atMost: nat): Option<seq<Line>> {
    match ParseInt(s, 4)
    case Fail => None
    case Ok(count, s1) =>
      if !(atLeast <= count <= atMost) then None
      else match ParseMany(ParseLine, s1, count)
           case Fail => None
           case Ok(lines, s2) => if |s| - |s2| > BLOCK_SIZE then None else Some(lines)
  }

  /** IndexBlock::Deserialize refuses an empty block and more than 126 entries. */
  function ParseIndexBlock(s: Bytes): Option<seq<Line>> { ParseLines(s, 1, BLOCK_ENTRIES) }

  /** LookupBlock::Deserialize refuses more than 10000 entries. */
  function ParseLookupBlock(s: Bytes): Option<seq<Line>> { ParseLines(s, 0, MAX_LOOKUP_ENTRIES) }

  lemma {:induction false} LinesSizeIs(lines: seq<Line>)
    ensures |PrintMany(PrintLine, lines, [])| == LinesSize(lines)
    decreases |lines|
  {
    if lines != [] { LinesSizeIs(lines[1..]); }
  }

  lemma LinesInvert(lines: seq<Line>, tail: Bytes)
    requires forall i :: 0 <= i < |lines| ==> LineFits(lines[i])
    ensures ParseMany(ParseLine, PrintMany(PrintLine, lines, tail), |lines|) == Ok(lines, tail)
  {
    forall i | 0 <= i < |lines| ensures Inverts(PrintLine, ParseLine, Unchanged, lines[i]) {
      forall t ensures ParseLine(PrintLine(lines[i], t)) == Ok(lines[i], t) { ParseLineInverts(lines[i], t); }
    }
    ManyInverts(PrintLine, ParseLine, Unchanged, lines, tail);
    assert Map(Unchanged, lines) == lines;
  }

  lemma LinesTail(lines: seq<Line>, tail: Bytes)
    ensures PrintLines(lines) + tail == PrintInt(|lines|, 4) + PrintMany(PrintLine, lines, tail)
  {
    forall e, mid, t ensures PrintLine(e, mid + t) == PrintLine(e, mid) + t { PrintLineTail(e, mid, t); }
    PrintManyTail(PrintLine, lines, tail);
  }

  lemma ParseLinesOf(lines: seq<Line>, tail: Bytes, s: Bytes, atLeast: nat, atMost: nat)
    requires forall i :: 0 <= i < |lines| ==> LineFits(lines[i])
    requires atLeast <= |lines| <= atMost && |lines| < Pow256(4) && |s| - |tail| <= BLOCK_SIZE
    requires s == PrintInt(|lines|, 4) + PrintMany(PrintLine, lines, tail)
    ensures ParseLines(s, atLeast, atMost) == Some(lines)
  {
    ParseIntInverts(|lines|, 4, PrintMany(PrintLine, lines, tail));
    LinesInvert(lines, tail);
  }

  lemma ParsePadded(lines: seq<Line>, atLeast: nat, atMost: nat)
    requires forall i :: 0 <= i < |lines| ==> LineFits(lines[i])
    requires atLeast <= |lines| <= atMost && |lines| < Pow256(4) && |PrintLines(lines)| <= BLOCK_SIZE
    ensures ParseLines(Padded(PrintLines(lines)).value, atLeast, atMost) == Some(lines)
  {
    var body := PrintLines(lines);
    var zeros := Zeros(BLOCK_SIZE - |body|);
    LinesTail(lines, zeros);
    ParseLinesOf(lines, zeros, body + zeros, atLeast, atMost);
  }

  /** A block is written exactly if its entries fit, takes exactly one block then, and is
      read back unchanged. */
  lemma IndexBlockRoundTrip(lines: seq<Line>)
    requires lines != [] && forall i :: 0 <= i < |lines| ==> LineFits(lines[i])
    ensures PrintIndexBlock(lines).Some? <==> |lines| <= BLOCK_ENTRIES && 4 + LinesSize(lines) <= BLOCK_SIZE
    ensures PrintIndexBlock(lines).Some? ==>
              |PrintIndexBlock(lines).value| == BLOCK_SIZE &&
                  ParseIndexBlock(PrintIndexBlock(lines).value) == Some(lines)
  {
    LinesSizeIs(lines);
    Widths();
    if PrintIndexBlock(lines).Some? { ParsePadded(lines, 1, BLOCK_ENTRIES); }
  }

  lemma LookupBlockRoundTrip(lines: seq<Line>)
    requires |lines| <= MAX_LOOKUP_ENTRIES && forall i :: 0 <= i < |lines| ==> LineFits(lines[i])
    ensures PrintLookupBlock(lines).Some? <==> 4 + LinesSize(lines) <= BLOCK_SIZE
    ensures PrintLookupBlock(lines).Some? ==>
              |PrintLookupBlock(lines).value| == BLOCK_SIZE &&
                  ParseLookupBlock(PrintLookupBlock(lines).value) == Some(lines)
  {
    LinesSizeIs(lines);
    Widths();
    if PrintLookupBlock(lines).Some? { ParsePadded(lines, 0, MAX_LOOKUP_ENTRIES); }
  }

  lemma {:induction false} LinesSizeBound(lines: seq<Line>, n: nat)
    requires forall i :: 0 <= i < |lines| ==> |lines[i].pid| <= n
    ensures LinesSize(lines) <= |lines| * (33 + n)
    decreases |lines|
  {
    if lines != [] {
      assert forall i :: 0 <= i < |lines[1..]| ==> lines[1..][i] == lines[i + 1];
      LinesSizeBound(lines[1..], n);
      assert |lines| * (33 + n) == (33 + n) + (|lines| - 1) * (33 + n);
    }
  }

  lemma {:induction false} LinesSizeExact(lines: seq<Line>, n: nat)
    requires forall i :: 0 <= i < |lines| ==> |lines[i].pid| == n
    ensures LinesSize(lines) == |lines| * (33 + n)
    decreases |lines|
  {
    if lines != [] {
      assert forall i :: 0 <= i < |lines[1..]| ==> lines[1..][i] == lines[i + 1];
      LinesSizeExact(lines[1..], n);
      assert |lines| * (33 + n) == (33 + n) + (|lines| - 1) * (33 + n);
    }
  }

  /** Blocks of at most 126 entries always fit with page ids of at most 64 characters. */
  lemma ShortPidsFit(lines: seq<Line>)
    requires |lines| <= BLOCK_ENTRIES && forall i :: 0 <= i < |lines| ==> |lines[i].pid| <= 64
    ensures 4 + LinesSize(lines) <= BLOCK_SIZE
  {
    LinesSizeBound(lines, 64);
    assert |lines| * 97 <= 126 * 97;
  }

  /** And 64 is the longest page id of which 126 entries fit. */
  lemma FullBlockFitsIff(lines: seq<Line>, n: nat)
    requires |lines| == BLOCK_ENTRIES && forall i :: 0 <= i < |lines| ==> |lines[i].pid| == n
    ensures 4 + LinesSize(lines) <= BLOCK_SIZE <==> n <= 64
  {
    LinesSizeExact(lines, n);
    assert |lines| * (33 + n) == 126 * (33 + n);
  }
}
