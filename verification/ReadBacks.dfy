/** What stored pages become when they are written to a file and read back from it. */
module ReadBacks {
  import opened Types
  import opened Pages
  import opened Replays
  import opened Chains
  import opened Copies
  import opened Fields
  import opened DeltaCodec
  import opened BaseCodec
  import opened Sizes

  function DeltaBack(d: DeltaPage): DeltaPage {
    d.(items := Map(ItemBack, d.items), bcount := 0)
  }

  /** What becomes of a stored page in a file. */
  function ReadBack(x: Stored): Stored {
    match x
    case Delta(d) => Delta(DeltaBack(d))
    case Base(p) => if p.root.Some? then Base(PageBack(p)) else x
  }

  /** Its numbers fit their fields. */
  ghost predicate StoredFits(pid: Bytes, x: Stored) {
    match x
    case Delta(d) => DeltaFits(pid, d)
    case Base(p) => PageFits(pid, p)
  }

  function Printed(pid: Bytes, x: Stored): Option<Bytes> {
    match x
    case Delta(d) => PrintDelta(pid, d)
    case Base(p) => if p.root.Some? then PrintPage(pid, p) else None
  }

  /** The page table reads a page as the type that its key names. */
  function ReadPrinted(bytes: Bytes, delta: bool): Option<Stored> {
    if delta then
      match ParseDelta(bytes) case Ok(r, _) => Some(Delta(r.1)) case Fail => None
    else
      match ParsePage(bytes) case Ok(r, _) => Some(Base(r.1)) case Fail => None
  }

  /** What is written is read back as ReadBack says. */
  lemma FileGivesBack(pid: Bytes, x: Stored)
    requires StoredFits(pid, x) && Printed(pid, x).Some?
    ensures ReadPrinted(Printed(pid, x).value, x.Delta?) == Some(ReadBack(x))
  {
    match x
    case Delta(d) => DeltaRoundTrip(pid, d);
    case Base(p) => PageRoundTrip(pid, p);
  }

  /** A stored page after it went through its bytes, None where it cannot be written or
      read. */
  function ThroughBytes(pid: Bytes, x: Stored): Option<Stored> {
    match Printed(pid, x)
    case None => None
    case Some(bytes) => ReadPrinted(bytes, x.Delta?)
  }

  /** A file always loses the slots of a root, and with hashes of other lengths, as those
      of deleted keys, the hashes too. */
  type FileLoss = l: Loss | !l.Lossless? witness Hashless

  /** The numbers that a field of eight bytes carries, and the hashes that 32 bytes carry. */
  function Carried(loss: FileLoss): Bound {
    Bound(Some(Pow256(8)), loss.Slotless?)
  }

  lemma ItemsBackSame(items: seq<Item>, loss: FileLoss)
    requires FitItems(items, Carried(loss))
    ensures SameItems(Map(ItemBack, items), items, loss) && FitItems(Map(ItemBack, items), Carried(loss))
  {
    forall i | 0 <= i < |items|
      ensures ViewItem(Map(ItemBack, items)[i], loss) == ViewItem(items[i], loss) &&
              FitItem(Map(ItemBack, items)[i], Carried(loss))
    {
      assert FitItem(items[i], Carried(loss));
      ItemBackIff(items[i]);
    }
  }

  lemma FitDeltaFits(pid: Bytes, d: DeltaPage, loss: FileLoss)
    requires FitDelta(d, Carried(loss)) && |d.items| <= TD && |pid| <= 610
    ensures DeltaFits(pid, d) && PrintDelta(pid, d).Some?
  {
    Widths();
    assert Pow256(8) == 0x1_0000_0000_0000_0000;
    DeltaAlwaysFits(pid, d);
    forall i | 0 <= i < |d.items| ensures DeltaCodec.ItemFits(d.items[i]) {
      assert FitItem(d.items[i], Carried(loss));
    }
  }

  lemma FitPageFits(pid: Bytes, p: Page, n: nat, loss: FileLoss)
    requires FitPage(pid, p, Carried(loss)) && p.root.Some? && Shaped(p, n) && |pid| <= 610
    ensures PageFits(pid, p) && PrintPage(pid, p).Some?
  {
    Widths();
    PageAlwaysFits(pid, p, n);
  }

  ghost predicate ShapedStored(x: Stored, n: nat) {
    match x
    case Delta(d) => |d.items| <= TD
    case Base(p) => Shaped(p, n)
  }

  lemma PageBackFits(pid: Bytes, p: Page, n: nat, bound: Bound)
    requires FitPage(pid, p, bound) && StampedPage(p) && Shaped(p, n) && Num(0, bound)
    ensures FitPage(pid, PageBack(p), bound) && StampedPage(PageBack(p)) && RootFull(PageBack(p), bound)
  {
    if bound.full { KidsBackAreFull(p); }
  }

  lemma KidsBackAreFull(p: Page)
    requires p.root.Some? && KidsFull(p)
    ensures KidsFull(PageBack(p)) && |PageBack(p).root.value.hash| == HASH_SIZE && PageBack(p).kids == p.kids
  {
    forall i | i in p.kids ensures NodeBack(p.kids[i]) == p.kids[i] { NodeBackFull(p.kids[i]); }
  }

  /** With 32-byte hashes only the root's slots are lost. */
  lemma FullCopy(p: Page)
    requires StampedPage(p) && KidsFull(p) && |p.root.value.hash| == HASH_SIZE
    ensures CopyOf(Base(p), Base(PageBack(p)), Slotless)
  {
    KidsBackAreFull(p);
    SameFromParts(p, PageBack(p), Slotless);
  }

  lemma BackCopy(p: Page, loss: FileLoss)
    requires StampedPage(p) && (loss.Slotless? ==> KidsFull(p)) && RootFull(p, Carried(loss))
    ensures CopyOf(Base(p), Base(PageBack(p)), loss)
  {
    if loss.Slotless? { FullCopy(p); } else { BaseCopy(p); }
  }

  /** A stored page that fits is written and read back as a faithful copy, as far as Get can
      tell, that fits again; and with 32-byte hashes as one whose hashes, too, are right. */
  lemma FitSurvives(pid: Bytes, x: Stored, n: nat, loss: FileLoss)
    requires FitStored(pid, x, Carried(loss)) && ShapedStored(x, n) && |pid| <= 610
    ensures ThroughBytes(pid, x) == Some(ReadBack(x))
    ensures FitStored(pid, ReadBack(x), Carried(loss)) && CopyOf(x, ReadBack(x), loss)
  {
    match x
    case Delta(d) =>
      FitDeltaFits(pid, d, loss);
      FileGivesBack(pid, x);
      ItemsBackSame(d.items, loss);
    case Base(p) =>
      FitPageFits(pid, p, n, loss);
      FileGivesBack(pid, x);
      Widths();
      PageBackFits(pid, p, n, Carried(loss));
      BackCopy(p, loss);
  }

  /** Being copies of one another is an equivalence. */
  lemma CopySame(x: Stored, loss: Loss)
    ensures CopyOf(x, x, loss)
  {
  }

  lemma CopyFlip(x: Stored, y: Stored, loss: Loss)
    requires CopyOf(x, y, loss)
    ensures CopyOf(y, x, loss)
  {
  }
}
