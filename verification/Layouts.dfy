/** Where each field of a record, a key, a delta page, a base page or a block lies, counted
    from its first byte. A round trip only says that a printer and a parser agree; these
    say which bytes they agree on, so that another reader of the files could be written
    from them. */
module Layouts {
  import opened Types
  import opened Pages
  import opened Chains
  import opened Fields
  import opened DeltaCodec
  import opened BaseCodec
  import opened BlockCodec
  import opened ValueLog

  /** The bytes of s from offset at on begin with field. */
  ghost predicate Holds(s: Bytes, at: nat, field: Bytes) {
    at + |field| <= |s| && s[at..at + |field|] == field
  }

  /** The w bytes of s from offset at on are the integer n, little-endian: byte k carries
      its bits from 8k on. */
  ghost predicate Says(s: Bytes, at: nat, n: nat, w: nat) {
    at + w <= |s| && forall k :: 0 <= k < w ==> s[at + k] == n / Pow256(k) % 256
  }

  /** From a field to what follows it. */
  lemma Step(s: Bytes, at: nat, field: Bytes, rest: Bytes)
    requires at <= |s| && s[at..] == field + rest
    ensures Holds(s, at, field) && at + |field| <= |s| && s[at + |field|..] == rest
  {
    assert s[at..][|field|..] == rest;
    assert s[at..at + |field|] == s[at..][..|field|];
  }

  /* ---- Integers and digits ---- */

  lemma DivTwice(n: nat, p: nat)
    requires p > 0
    ensures n / 256 / p == n / (256 * p)
  {
    var q, r := n / 256 / p, n / 256 % p;
    assert n / 256 == p * q + r;
    assert n == 256 * (n / 256) + n % 256;
    assert n == (256 * p) * q + (256 * r + n % 256) by {
      assert 256 * (p * q + r) == (256 * p) * q + 256 * r;
    }
    assert 0 <= 256 * r + n % 256 < 256 * p;
    DivUnique(n, 256 * p, q, 256 * r + n % 256);
  }

  lemma DivUnique(n: nat, d: nat, q: nat, r: nat)
    requires r < d && n == d * q + r
    ensures n / d == q
  {
    var e: int := n / d - q;
    assert n == d * (n / d) + n % d;
    assert d * e == r - n % d by { assert d * (n / d) - d * q == d * (n / d - q); }
    if e != 0 {
      Multiple(d, e);
      assert false;
    }
  }

  lemma Multiple(d: int, e: int)
    requires d >= 0 && e != 0
    ensures d * e >= d || d * e <= -d
  {
    if e > 0 {
      assert d * e == d + d * (e - 1) && d * (e - 1) >= 0;
    } else {
      assert d * e == -d - d * (-e - 1) && d * (-e - 1) >= 0;
    }
  }

  lemma {:induction false} IntByte(n: nat, w: nat, k: nat)
    requires k < w
    ensures PrintInt(n, w)[k] == n / Pow256(k) % 256
    decreases k
  {
    if k > 0 {
      IntByte(n / 256, w - 1, k - 1);
      DivTwice(n, Pow256(k - 1));
    }
  }

  lemma IntStep(s: Bytes, at: nat, n: nat, w: nat, rest: Bytes)
    requires at <= |s| && s[at..] == PrintInt(n, w) + rest
    ensures Says(s, at, n, w) && at + w <= |s| && s[at + w..] == rest
  {
    Step(s, at, PrintInt(n, w), rest);
    forall k | 0 <= k < w ensures s[at + k] == n / Pow256(k) % 256 {
      IntByte(n, w, k);
      assert s[at..at + w][k] == s[at + k];
    }
  }

  /** The number that decimal digits spell, the most significant first. */
  function Spelled(s: Bytes): int {
    if s == [] then 0 else 10 * Spelled(s[..|s| - 1]) + s[|s| - 1] - 48
  }

  lemma {:induction false} DecimalSpells(n: nat)
    ensures Spelled(Decimal(n)) == n
  {
    if n >= 10 {
      DecimalSpells(n / 10);
      assert Decimal(n)[..|Decimal(n)| - 1] == Decimal(n / 10);
    } else {
      assert Decimal(n)[..0] == [];
    }
  }

  lemma {:induction false} BeforeWhole(s: Bytes, t: Bytes, d: Byte)
    requires d !in s
    ensures Before(s + [d] + t, d) == s
    decreases |s|
  {
    if s == [] {
      assert s + [d] + t == [d] + t;
    } else {
      assert (s + [d] + t)[0] == s[0] && (s + [d] + t)[1..] == s[1..] + [d] + t;
      BeforeWhole(s[1..], t, d);
    }
  }

  /** A value record names its version in decimal and its key in hexadecimal, a comma behind
      each, then the value, and ends with a newline. */
  lemma RecordLayout(version: nat, key: Path, value: Bytes)
    ensures var s := Record(version, key, value);
            Spelled(Before(s, COMMA)) == version && |Before(After(s, COMMA), COMMA)| == |key| &&
            (forall i :: 0 <= i < |key| ==> Before(After(s, COMMA), COMMA)[i] == HexChar(key[i])) &&
            After(After(s, COMMA), COMMA) == value + [NEWLINE]
  {
    var rest := HexString(key) + [COMMA] + (value + [NEWLINE]);
    assert Record(version, key, value) == Decimal(version) + [COMMA] + rest;
    DecimalSpells(version);
    BeforeWhole(Decimal(version), rest, COMMA);
    AfterSkips(Decimal(version), rest, COMMA);
    BeforeWhole(HexString(key), value + [NEWLINE], COMMA);
    AfterSkips(HexString(key), value + [NEWLINE], COMMA);
  }

  /* ---- Keys and delta pages ---- */

  /** version at 0, trie id at 8, type at 16, length of the page id at 17, page id at 25. */
  ghost predicate KeyAt(s: Bytes, key: Key, pid: Bytes) {
    Says(s, 0, key.version, 8) && Says(s, 8, 0, 8) && Says(s, 16, if key.delta then 1 else 0, 1) &&
    Says(s, 17, |pid|, 8) && Holds(s, 25, pid)
  }

  lemma KeyLayout(key: Key, pid: Bytes, tail: Bytes)
    ensures var s := PrintKey(key, pid, tail);
            KeyAt(s, key, pid) && s[25 + |pid|..] == tail
  {
    var flag := if key.delta then 1 else 0;
    var s4 := pid + tail;
    var s3 := PrintInt(|pid|, 8) + s4;
    var s2 := PrintInt(flag, 1) + s3;
    var s1 := PrintInt(0, 8) + s2;
    var s := PrintKey(key, pid, tail);
    IntStep(s, 0, key.version, 8, s1);
    IntStep(s, 8, 0, 8, s2);
    IntStep(s, 16, flag, 1, s3);
    IntStep(s, 17, |pid|, 8, s4);
    Step(s, 25, pid, tail);
  }

  lemma LocationLayout(s: Bytes, at: nat, loc: Location, tail: Bytes)
    requires at <= |s| && s[at..] == PrintLocation(loc, tail)
    ensures Says(s, at, loc.fileID, 8) && Says(s, at + 8, loc.offset, 8) && Says(s, at + 16, loc.size, 8) &&
            at + 24 <= |s| && s[at + 24..] == tail
  {
    var s2 := PrintInt(loc.size, 8) + tail;
    var s1 := PrintInt(loc.offset, 8) + s2;
    IntStep(s, at, loc.fileID, 8, s1);
    IntStep(s, at + 8, loc.offset, 8, s2);
    IntStep(s, at + 16, loc.size, 8, tail);
  }

  /** Place in the page at 0, kind at 1, version at 2, hash at 10; then file id at 42, offset
      at 50 and size at 58 of a leaf, or nibble at 42 and child hash at 43. */
  lemma ItemLayout(it: Item, tail: Bytes)
    ensures var s := PrintItem(it, tail);
            Says(s, 0, it.location, 1) && Says(s, 1, if it.isLeaf then 1 else 0, 1) && Says(s, 2, it.version, 8) &&
            Holds(s, 10, Fixed(it.hash)) &&
            (if it.isLeaf then
               Says(s, 42, it.loc.fileID, 8) && Says(s, 50, it.loc.offset, 8) && Says(s, 58, it.loc.size, 8)
             else Says(s, 42, it.index, 1) && Holds(s, 43, Fixed(it.childHash)))
  {
    var flag := if it.isLeaf then 1 else 0;
    var s5 := Fixed(it.childHash) + tail;
    var s4 := if it.isLeaf then PrintLocation(it.loc, tail) else PrintInt(it.index, 1) + s5;
    var s3 := Fixed(it.hash) + s4;
    var s2 := PrintInt(it.version, 8) + s3;
    var s1 := PrintInt(flag, 1) + s2;
    var s := PrintItem(it, tail);
    IntStep(s, 0, it.location, 1, s1);
    IntStep(s, 1, flag, 1, s2);
    IntStep(s, 2, it.version, 8, s3);
    Step(s, 10, Fixed(it.hash), s4);
    if it.isLeaf {
      LocationLayout(s, 42, it.loc, tail);
    } else {
      IntStep(s, 42, it.index, 1, s5);
      Step(s, 43, Fixed(it.childHash), tail);
    }
  }

  /** The bytes that these elements take, each of a size of its own. */
  function SizeOf<T(!new)>(emit: (T, Bytes) -> Bytes, xs: seq<T>): nat {
    if xs == [] then 0 else |emit(xs[0], [])| + SizeOf(emit, xs[1..])
  }

  lemma Shift(a: Bytes, b: Bytes, at: nat, field: Bytes)
    requires Holds(b, at, field)
    ensures Holds(a + b, |a| + at, field)
  {
    assert (a + b)[|a| + at..|a| + at + |field|] == b[at..at + |field|];
  }

  /** A field of what begins at offset at. */
  lemma Within(s: Bytes, at: nat, part: Bytes, offset: nat, field: Bytes)
    requires at <= |s| && s[at..] == part && Holds(part, offset, field)
    ensures Holds(s, at + offset, field)
  {
    assert s == s[..at] + part;
    Shift(s[..at], part, offset, field);
  }

  /** A field of what follows a field. */
  lemma Behind(s: Bytes, at: nat, part: Bytes, rest: Bytes, offset: nat, field: Bytes)
    requires at <= |s| && s[at..] == part + rest && Holds(rest, offset, field)
    ensures Holds(s, at, part) && Holds(s, at + |part| + offset, field)
  {
    Step(s, at, part, rest);
    Within(s, at + |part|, rest, offset, field);
  }

  lemma EmitFirst<T(!new)>(emit: (T, Bytes) -> Bytes, x: T, tail: Bytes)
    requires Prefixes(emit)
    ensures emit(x, tail) == emit(x, []) + tail && Holds(emit(x, tail), 0, emit(x, []))
  {
    assert emit(x, [] + tail) == emit(x, []) + tail;
    assert [] + tail == tail;
  }

  /** Element i begins where those before it end. */
  lemma {:induction false} ManyLayout<T(!new)>(emit: (T, Bytes) -> Bytes, xs: seq<T>, tail: Bytes, i: nat)
    requires Prefixes(emit) && i < |xs|
    ensures Holds(PrintMany(emit, xs, tail), SizeOf(emit, xs[..i]), emit(xs[i], []))
    decreases i
  {
    var rest := PrintMany(emit, xs[1..], tail);
    EmitFirst(emit, xs[0], rest);
    if i > 0 {
      ManyLayout(emit, xs[1..], tail, i - 1);
      assert xs[..i][1..] == xs[1..][..i - 1];
      Shift(emit(xs[0], []), rest, SizeOf(emit, xs[1..][..i - 1]), emit(xs[i], []));
    }
  }

  /** A delta page: its key, the count behind it, and the items one after the other. */
  lemma DeltaLayout(pid: Bytes, d: DeltaPage, i: nat)
    requires PrintDelta(pid, d).Some? && i < |d.items|
    ensures var s := PrintDelta(pid, d).value;
            |s| == PAGE_SIZE && KeyAt(s, d.last, pid) && Says(s, 25 + |pid|, d.count, 2) &&
            Holds(s, 27 + |pid| + SizeOf(PrintItem, d.items[..i]), PrintItem(d.items[i], []))
  {
    var zeros := PrintDeltaPads(pid, d);
    var s := PrintDeltaBody(pid, d, zeros);
    var items := PrintMany(PrintItem, d.items, zeros);
    KeyLayout(d.last, pid, PrintLog(d, zeros));
    IntStep(s, 25 + |pid|, d.count, 2, items);
    forall it, mid, t ensures PrintItem(it, mid + t) == PrintItem(it, mid) + t { PrintItemTail(it, mid, t); }
    ManyLayout(PrintItem, d.items, zeros, i);
    Within(s, 27 + |pid|, items, SizeOf(PrintItem, d.items[..i]), PrintItem(d.items[i], []));
  }

  /* ---- Base pages ---- */

  /** Kind at 0 and version at 1. A leaf has the length of its key at 9, the key at 17, and
      behind it location and hash; an index node has its hash at 9, its bitmap at 41 and its
      slots from 43 on. */
  lemma NodeLayout(n: Node, tail: Bytes)
    ensures var s := PrintNode(n, tail);
            Says(s, 0, if n.Leaf? then 1 else 0, 1) && Says(s, 1, n.version, 8) &&
            (if n.Leaf? then
               Says(s, 9, |n.key|, 8) && Holds(s, 17, n.key) && Says(s, 17 + |n.key|, n.loc.fileID, 8) &&
               Says(s, 25 + |n.key|, n.loc.offset, 8) && Says(s, 33 + |n.key|, n.loc.size, 8) &&
               Holds(s, 41 + |n.key|, Fixed(n.hash))
             else
               Holds(s, 9, Fixed(n.hash)) && Says(s, 41, Bits(n.slots.Keys, 0), 2) &&
               s[43..] == PrintWhere(PrintSlot, n.slots, 0, tail))
  {
    var s := PrintNode(n, tail);
    if n.Leaf? {
      var s5 := Fixed(n.hash) + tail;
      var s4 := PrintLocation(n.loc, s5);
      var s3 := n.key + s4;
      var s2 := PrintInt(|n.key|, 8) + s3;
      IntStep(s, 0, 1, 1, PrintInt(n.version, 8) + s2);
      IntStep(s, 1, n.version, 8, s2);
      IntStep(s, 9, |n.key|, 8, s3);
      Step(s, 17, n.key, s4);
      LocationLayout(s, 17 + |n.key|, n.loc, s5);
      Step(s, 41 + |n.key|, Fixed(n.hash), tail);
    } else {
      var s4 := PrintWhere(PrintSlot, n.slots, 0, tail);
      var s3 := PrintInt(Bits(n.slots.Keys, 0), 2) + s4;
      var s2 := Fixed(n.hash) + s3;
      IntStep(s, 0, 0, 1, PrintInt(n.version, 8) + s2);
      IntStep(s, 1, n.version, 8, s2);
      Step(s, 9, Fixed(n.hash), s3);
      IntStep(s, 41, Bits(n.slots.Keys, 0), 2, s4);
    }
  }

  /** The bytes that the children at i up to j take. */
  function SizeWhere<T(!new)>(emit: (T, Bytes) -> Bytes, m: map<Nibble, T>, i: nat, j: nat): nat
    requires i <= j <= FANOUT
    decreases j - i
  {
    if i == j then 0 else (if i in m then |emit(m[i], [])| else 0) + SizeWhere(emit, m, i + 1, j)
  }

  /** Children stand in the order of their nibbles, and only those that exist. */
  lemma {:induction false} WhereLayout<T(!new)>(emit: (T, Bytes) -> Bytes, m: map<Nibble, T>, i: nat, j: nat,
                                                tail: Bytes)
    requires Prefixes(emit) && i <= j < FANOUT && j in m
    ensures Holds(PrintWhere(emit, m, i, tail), SizeWhere(emit, m, i, j), emit(m[j], []))
    decreases j - i
  {
    var rest := PrintWhere(emit, m, i + 1, tail);
    if i in m { EmitFirst(emit, m[i], rest); }
    if i < j {
      WhereLayout(emit, m, i + 1, j, tail);
      if i in m { Shift(emit(m[i], []), rest, SizeWhere(emit, m, i + 1, j), emit(m[j], [])); }
    }
  }

  /** A slot is the child's version and its hash. */
  lemma SlotFields(slot: Slot, tail: Bytes)
    ensures Says(PrintSlot(slot, tail), 0, slot.version, 8) && Holds(PrintSlot(slot, tail), 8, Fixed(slot.hash))
  {
    IntStep(PrintSlot(slot, tail), 0, slot.version, 8, Fixed(slot.hash) + tail);
    Step(PrintSlot(slot, tail), 8, Fixed(slot.hash), tail);
  }

  lemma SlotsLayout(slots: map<Nibble, Slot>, j: Nibble, tail: Bytes)
    requires j in slots
    ensures Holds(PrintWhere(PrintSlot, slots, 0, tail), SizeWhere(PrintSlot, slots, 0, j), PrintSlot(slots[j], []))
  {
    forall slot, m, t ensures PrintSlot(slot, m + t) == PrintSlot(slot, m) + t {}
    WhereLayout(PrintSlot, slots, 0, j, tail);
  }

  /** Child j's slot within its index node. */
  lemma SlotLayout(n: Node, j: Nibble, tail: Bytes)
    requires n.Index? && j in n.slots
    ensures Holds(PrintNode(n, tail), 43 + SizeWhere(PrintSlot, n.slots, 0, j), PrintSlot(n.slots[j], []))
  {
    NodeLayout(n, tail);
    SlotsLayout(n.slots, j, tail);
    Within(PrintNode(n, tail), 43, PrintWhere(PrintSlot, n.slots, 0, tail), SizeWhere(PrintSlot, n.slots, 0, j),
           PrintSlot(n.slots[j], []));
  }

  lemma KidsLayout(kids: map<Nibble, Node>, j: Nibble, tail: Bytes)
    requires j in kids
    ensures Holds(PrintWhere(PrintNode, kids, 0, tail), SizeWhere(PrintNode, kids, 0, j), PrintNode(kids[j], []))
  {
    forall n, m, t ensures PrintNode(n, m + t) == PrintNode(n, m) + t { PrintNodeTail(n, m, t); }
    WhereLayout(PrintNode, kids, 0, j, tail);
  }

  /** A base page: its key with the root's version, the root behind it, and behind that the
      children in the order of their nibbles. */
  lemma PageLayout(pid: Bytes, p: Page, j: Nibble)
    requires p.root.Some? && p.root.value.Index? && PrintPage(pid, p).Some? && j in p.kids
    ensures var s := PrintPage(pid, p).value;
            |s| == PAGE_SIZE && KeyAt(s, Key(p.root.value.version, false), pid) &&
            Holds(s, 25 + |pid|, PrintNode(p.root.value, [])) &&
            Holds(s, 25 + |pid| + |PrintNode(p.root.value, [])| + SizeWhere(PrintNode, p.kids, 0, j),
                  PrintNode(p.kids[j], []))
  {
    var k := Key(p.root.value.version, false);
    var zeros := Zeros(PAGE_SIZE - |PrintKey(k, pid, PrintRoot(p, []))|);
    PrintRootTail(p, zeros);
    PrintKeyTail(k, pid, PrintRoot(p, []), zeros);
    KeyLayout(k, pid, PrintRoot(p, zeros));
    KidsLayout(p.kids, j, zeros);
    BehindNode(PrintKey(k, pid, PrintRoot(p, zeros)), 25 + |pid|, p.root.value, PrintWhere(PrintNode, p.kids, 0, zeros),
               SizeWhere(PrintNode, p.kids, 0, j), PrintNode(p.kids[j], []));
  }

  lemma BehindNode(s: Bytes, at: nat, n: Node, rest: Bytes, offset: nat, field: Bytes)
    requires at <= |s| && s[at..] == PrintNode(n, rest) && Holds(rest, offset, field)
    ensures Holds(s, at, PrintNode(n, [])) && Holds(s, at + |PrintNode(n, [])| + offset, field)
  {
    PrintNodeTail(n, [], rest);
    assert [] + rest == rest;
    Behind(s, at, PrintNode(n, []), rest, offset, field);
  }

  /* ---- Blocks ---- */

  /** The count in four bytes, then each entry: a key, and its place in the file behind it. */
  lemma BlockLayout(lines: seq<Line>, i: nat)
    requires Padded(PrintLines(lines)).Some? && i < |lines|
    ensures var s := Padded(PrintLines(lines)).value;
            Says(s, 0, |lines|, 4) && Holds(s, 4 + SizeOf(PrintLine, lines[..i]), PrintLine(lines[i], []))
  {
    var zeros := Zeros(BLOCK_SIZE - |PrintLines(lines)|);
    var s := Padded(PrintLines(lines)).value;
    var all := PrintMany(PrintLine, lines, zeros);
    LinesTail(lines, zeros);
    IntStep(s, 0, |lines|, 4, all);
    forall e, mid, t ensures PrintLine(e, mid + t) == PrintLine(e, mid) + t { PrintLineTail(e, mid, t); }
    ManyLayout(PrintLine, lines, zeros, i);
    Within(s, 4, all, SizeOf(PrintLine, lines[..i]), PrintLine(lines[i], []));
  }

  lemma LineLayout(e: Line, tail: Bytes)
    ensures var s := PrintLine(e, tail); KeyAt(s, e.key, e.pid) && Says(s, 25 + |e.pid|, e.location, 8)
  {
    KeyLayout(e.key, e.pid, PrintInt(e.location, 8) + tail);
    IntStep(PrintLine(e, tail), 25 + |e.pid|, e.location, 8, tail);
  }
}
