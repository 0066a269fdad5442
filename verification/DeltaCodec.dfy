/** The byte format of delta pages: what SerializeTo writes into a page buffer, what the
    constructor from a buffer reads, and what survives the round trip. */
module DeltaCodec {
  import opened Types
  import opened Pages
  import opened Chains
  import opened Fields

  /** sizeof(DeltaItem) on a 64-bit system, which the overflow check adds. */
  const ITEM_OBJECT_SIZE: nat := 112

  /* ---- Delta items ---- */

  function ItemSize(it: Item): nat { if it.isLeaf then 66 else 75 }

  function PrintLocation(loc: Location, tail: Bytes): (s: Bytes)
    ensures |s| == 24 + |tail|
  {
    PrintInt(loc.fileID, 8) + (PrintInt(loc.offset, 8) + (PrintInt(loc.size, 8) + tail))
  }

  function PrintItem(it: Item, tail: Bytes): (s: Bytes)
    ensures |s| == ItemSize(it) + |tail|
  {
    PrintInt(it.location, 1) + (PrintInt(if it.isLeaf then 1 else 0, 1) + (PrintInt(it.version, 8) + (Fixed(it.hash) +
      if it.isLeaf then PrintLocation(it.loc, tail)
      else PrintInt(it.index, 1) + (Fixed(it.childHash) + tail))))
  }

  function ParseLocation(s: Bytes): Parsed<Location> {
    var (fileID, s1) :- ParseInt(s, 8);
    var (offset, s2) :- ParseInt(s1, 8);
    var (size, s3) :- ParseInt(s2, 8);
    Ok(Location(fileID, offset, size), s3)
  }

  /** The fields of the other kind of item, which the source leaves unset, read as defaults. */
  function ParseItem(s: Bytes): Parsed<Item> {
    var (location, s1) :- ParseInt(s, 1);
    var (isLeaf, s2) :- ParseInt(s1, 1);
    var (version, s3) :- ParseInt(s2, 8);
    var (hash, s4) :- Take(s3, HASH_SIZE);
    if isLeaf != 0 then
      var (loc, s5) :- ParseLocation(s4);
      Ok(Item(location, true, version, hash, loc, 0, []), s5)
    else
      var (index, s5) :- ParseInt(s4, 1);
      if index >= FANOUT then Fail
      else
        var (childHash, s6) :- Take(s5, HASH_SIZE);
        Ok(Item(location, false, version, hash, NO_LOCATION, index, childHash), s6)
  }

  predicate LocationFits(loc: Location) {
    loc.fileID < Pow256(8) && loc.offset < Pow256(8) && loc.size < Pow256(8)
  }

  /** Its integers fit their fields. */
  predicate ItemFits(it: Item) {
    it.location < Pow256(1) && it.version < Pow256(8) && LocationFits(it.loc)
  }

  /** An item as AddLeafNodeUpdate and AddIndexNodeUpdate make them: the fields of the
      other kind are defaults. */
  predicate Plain(it: Item) {
    if it.isLeaf then it.index == 0 && it.childHash == [] else it.loc == NO_LOCATION
  }

  predicate FullHashes(it: Item) {
    |it.hash| == HASH_SIZE && (!it.isLeaf ==> |it.childHash| == HASH_SIZE)
  }

  /** What reading an item back yields. */
  function ItemBack(it: Item): Item {
    if it.isLeaf then Item(it.location, true, it.version, Fixed(it.hash), it.loc, 0, [])
    else Item(it.location, false, it.version, Fixed(it.hash), NO_LOCATION, it.index, Fixed(it.childHash))
  }

  lemma ParseLocationInverts(loc: Location, tail: Bytes)
    requires LocationFits(loc)
    ensures ParseLocation(PrintLocation(loc, tail)) == Ok(loc, tail)
  {
    var s3 := PrintInt(loc.size, 8) + tail;
    var s2 := PrintInt(loc.offset, 8) + s3;
    ParseIntInverts(loc.fileID, 8, s2);
    ParseIntInverts(loc.offset, 8, s3);
    ParseIntInverts(loc.size, 8, tail);
  }

  lemma ParseItemInverts(it: Item, tail: Bytes)
    requires ItemFits(it)
    ensures ParseItem(PrintItem(it, tail)) == Ok(ItemBack(it), tail)
  {
    var s5 := Fixed(it.childHash) + tail;
    var s4 := if it.isLeaf then PrintLocation(it.loc, tail) else PrintInt(it.index, 1) + s5;
    var s3 := Fixed(it.hash) + s4;
    var s2 := PrintInt(it.version, 8) + s3;
    var flag := if it.isLeaf then 1 else 0;
    var s1 := PrintInt(flag, 1) + s2;
    Widths();
    ParseIntInverts(it.location, 1, s1);
    ParseIntInverts(flag, 1, s2);
    ParseIntInverts(it.version, 8, s3);
    TakeInverts(Fixed(it.hash), s4);
    if it.isLeaf {
      ParseLocationInverts(it.loc, tail);
    } else {
      ParseIntInverts(it.index, 1, s5);
      TakeInverts(Fixed(it.childHash), tail);
    }
  }

  /** A logged item comes back exactly when its hashes have 32 bytes; otherwise all of it
      but the hashes does. */
  lemma ItemBackIff(it: Item)
    requires Plain(it)
    ensures ItemBack(it) == it <==> FullHashes(it)
    ensures ViewItem(ItemBack(it), Hashless) == ViewItem(it, Hashless)
  {
  }

  /* ---- Delta pages ---- */

  /** version | tid (always 0) | type | pid_size | pid */
  function PrintKey(key: Key, pid: Bytes, tail: Bytes): (s: Bytes)
    ensures |s| == 25 + |pid| + |tail|
  {
    PrintInt(key.version, 8) + (PrintInt(0, 8) + (PrintInt(if key.delta then 1 else 0, 1) +
      (PrintInt(|pid|, 8) + (pid + tail))))
  }

  /** No item runs into the overflow check when the first one is written at offset at. */
  predicate NoOverflow(items: seq<Item>, at: nat) {
    items == [] || (at + ITEM_OBJECT_SIZE <= PAGE_SIZE && NoOverflow(items[1..], at + ItemSize(items[0])))
  }

  function ItemsAt(pid: Bytes): nat { 27 + |pid| }

  /** update_count_ and the items. */
  function PrintLog(d: DeltaPage, tail: Bytes): Bytes {
    PrintInt(d.count, 2) + PrintMany(PrintItem, d.items, tail)
  }

  function PrintDeltaBody(pid: Bytes, d: DeltaPage, tail: Bytes): Bytes {
    PrintKey(d.last, pid, PrintLog(d, tail))
  }

  /** DeltaPage::SerializeTo: None stands for the overflow error, or for a page id so long
      that the header alone would leave the buffer. */
  function PrintDelta(pid: Bytes, d: DeltaPage): Option<Bytes> {
    var body := PrintDeltaBody(pid, d, []);
    if ItemsAt(pid) > PAGE_SIZE || !NoOverflow(d.items, ItemsAt(pid)) || |body| > PAGE_SIZE then None
    else Some(body + Zeros(PAGE_SIZE - |body|))
  }

  function ParseKey(s: Bytes): Parsed<(Key, Bytes)> {
    var (version, s1) :- ParseInt(s, 8);
    var (tid, s2) :- ParseInt(s1, 8);
    var (delta, s3) :- ParseInt(s2, 1);
    var (size, s4) :- ParseInt(s3, 8);
    var (pid, s5) :- Take(s4, size);
    Ok((Key(version, delta != 0), pid), s5)
  }

  /** The constructor from a buffer, and Deserialize: b_update_count_ starts at 0. */
  function ParseDelta(s: Bytes): Parsed<(Bytes, DeltaPage)> {
    var (k, s1) :- ParseKey(s);
    var (count, s2) :- ParseInt(s1, 2);
    var (items, s3) :- ParseMany(ParseItem, s2, count);
    Ok((k.1, DeltaPage(items, k.0, count, 0)), s3)
  }

  lemma ParseKeyInverts(key: Key, pid: Bytes, tail: Bytes)
    requires key.version < Pow256(8) && |pid| < Pow256(8)
    ensures ParseKey(PrintKey(key, pid, tail)) == Ok((key, pid), tail)
  {
    var flag := if key.delta then 1 else 0;
    var s4 := pid + tail;
    var s3 := PrintInt(|pid|, 8) + s4;
    var s2 := PrintInt(flag, 1) + s3;
    var s1 := PrintInt(0, 8) + s2;
    Widths();
    ParseIntInverts(key.version, 8, s1);
    ParseIntInverts(0, 8, s2);
    ParseIntInverts(flag, 1, s3);
    ParseIntInverts(|pid|, 8, s4);
    TakeInverts(pid, tail);
  }

  ghost predicate AllFit(items: seq<Item>) {
    forall i :: 0 <= i < |items| ==> ItemFits(items[i])
  }

  lemma ItemsInvert(items: seq<Item>, tail: Bytes)
    requires AllFit(items)
    ensures ParseMany(ParseItem, PrintMany(PrintItem, items, tail), |items|) == Ok(Map(ItemBack, items), tail)
  {
    forall i | 0 <= i < |items| ensures Inverts(PrintItem, ParseItem, ItemBack, items[i]) {
      forall t ensures ParseItem(PrintItem(items[i], t)) == Ok(ItemBack(items[i]), t) { ParseItemInverts(items[i], t); }
    }
    ManyInverts(PrintItem, ParseItem, ItemBack, items, tail);
  }

  lemma ItemsTail(items: seq<Item>, tail: Bytes)
    ensures PrintMany(PrintItem, items, tail) == PrintMany(PrintItem, items, []) + tail
  {
    forall it, mid, t ensures PrintItem(it, mid + t) == PrintItem(it, mid) + t { PrintItemTail(it, mid, t); }
    PrintManyTail(PrintItem, items, tail);
  }

  lemma PrintItemTail(it: Item, mid: Bytes, tail: Bytes)
    ensures PrintItem(it, mid + tail) == PrintItem(it, mid) + tail
  {
    if it.isLeaf {
      assert PrintLocation(it.loc, mid + tail) == PrintLocation(it.loc, mid) + tail;
    }
  }

  /** The integers of a delta page fit their fields, and its count is the number of items. */
  ghost predicate DeltaFits(pid: Bytes, d: DeltaPage) {
    d.count == |d.items| && d.count < Pow256(2) && d.last.version < Pow256(8) && |pid| < Pow256(8) &&
    AllFit(d.items)
  }

  lemma ParseDeltaInverts(pid: Bytes, d: DeltaPage, tail: Bytes)
    requires DeltaFits(pid, d)
    ensures ParseDelta(PrintDeltaBody(pid, d, tail)) ==
            Ok((pid, d.(items := Map(ItemBack, d.items), bcount := 0)), tail)
  {
    ParseKeyInverts(d.last, pid, PrintLog(d, tail));
    ParseIntInverts(d.count, 2, PrintMany(PrintItem, d.items, tail));
    ItemsInvert(d.items, tail);
  }

  lemma LogTail(d: DeltaPage, tail: Bytes)
    ensures PrintLog(d, []) + tail == PrintLog(d, tail)
  {
    ItemsTail(d.items, tail);
  }

  lemma BodyTail(pid: Bytes, d: DeltaPage, tail: Bytes)
    ensures PrintDeltaBody(pid, d, []) + tail == PrintDeltaBody(pid, d, tail)
  {
    LogTail(d, tail);
    PrintKeyTail(d.last, pid, PrintLog(d, []), tail);
  }

  lemma PrintDeltaPads(pid: Bytes, d: DeltaPage) returns (zeros: Bytes)
    requires PrintDelta(pid, d).Some?
    ensures PrintDelta(pid, d).value == PrintDeltaBody(pid, d, zeros)
  {
    zeros := Zeros(PAGE_SIZE - |PrintDeltaBody(pid, d, [])|);
    BodyTail(pid, d, zeros);
  }

  /** Printing and reading back a delta page restores its last page key, its count and its
      items in order; only b_update_count_ is lost, and hashes that do not have 32 bytes. */
  lemma DeltaRoundTrip(pid: Bytes, d: DeltaPage)
    requires DeltaFits(pid, d) && PrintDelta(pid, d).Some?
    ensures var r := ParseDelta(PrintDelta(pid, d).value);
            r.Ok? && r.value == (pid, d.(items := Map(ItemBack, d.items), bcount := 0))
  {
    var zeros := PrintDeltaPads(pid, d);
    ParseDeltaInverts(pid, d, zeros);
  }

  lemma PrintKeyTail(key: Key, pid: Bytes, mid: Bytes, tail: Bytes)
    ensures PrintKey(key, pid, mid + tail) == PrintKey(key, pid, mid) + tail
  {
  }

  /** With 32-byte hashes nothing but b_update_count_ is lost. */
  lemma FullDeltaRoundTrip(pid: Bytes, d: DeltaPage)
    requires DeltaFits(pid, d) && PrintDelta(pid, d).Some?
    requires forall i :: 0 <= i < |d.items| ==> Plain(d.items[i]) && FullHashes(d.items[i])
    ensures var r := ParseDelta(PrintDelta(pid, d).value);
            r.Ok? && r.value == (pid, d.(bcount := 0))
  {
    DeltaRoundTrip(pid, d);
    assert Map(ItemBack, d.items) == d.items;
  }

  /* ---- Delta pages always fit ---- */

  lemma {:induction false} ItemsNeverOverflow(items: seq<Item>, at: nat)
    requires at + 75 * |items| + (ITEM_OBJECT_SIZE - 75) <= PAGE_SIZE
    ensures NoOverflow(items, at) && |PrintMany(PrintItem, items, [])| <= 75 * |items|
    decreases |items|
  {
    if items != [] {
      ItemsNeverOverflow(items[1..], at + ItemSize(items[0]));
    }
  }

  /** The overflow error is unreachable for the 128 items at which a delta page is frozen. */
  lemma DeltaAlwaysFits(pid: Bytes, d: DeltaPage)
    requires |d.items| <= TD && |pid| <= 2624
    ensures PrintDelta(pid, d).Some? && |PrintDelta(pid, d).value| == PAGE_SIZE
  {
    ItemsNeverOverflow(d.items, ItemsAt(pid));
  }
}
