/** Fixed-width fields of the byte formats, printed in front of a tail and parsed off the
    front of a buffer. Integers are little-endian, as the source's memcpy leaves them. */
module Fields {
  import opened Types

  /** What parsing yields: a value and the bytes after it, or an error. */
  datatype Parsed<+T> = Fail | Ok(value: T, rest: Bytes)
  {
    predicate IsFailure() { Fail? }

    function PropagateFailure<U>(): Parsed<U>
      requires IsFailure()
    {
      Fail
    }

    function Extract(): (T, Bytes)
      requires !IsFailure()
    {
      (value, rest)
    }
  }

  function Pow256(w: nat): (p: nat)
    ensures p > 0
  {
    if w == 0 then 1 else 256 * Pow256(w - 1)
  }

  /** The low w bytes of n. */
  function PrintInt(n: nat, w: nat): (s: Bytes)
    ensures |s| == w
  {
    if w == 0 then [] else [n % 256] + PrintInt(n / 256, w - 1)
  }

  function IntOf(s: Bytes): nat {
    if s == [] then 0 else s[0] + 256 * IntOf(s[1..])
  }

  lemma {:induction false} IntBound(s: Bytes)
    ensures IntOf(s) < Pow256(|s|)
  {
    if s != [] { IntBound(s[1..]); }
  }

  lemma {:induction false} IntInverts(n: nat, w: nat)
    requires n < Pow256(w)
    ensures IntOf(PrintInt(n, w)) == n
    decreases w
  {
    if w > 0 {
      assert PrintInt(n, w)[1..] == PrintInt(n / 256, w - 1);
      IntInverts(n / 256, w - 1);
    }
  }

  /** A field of w bytes carries exactly the integers below 256 to the w. */
  lemma IntSurvivesIff(n: nat, w: nat)
    ensures IntOf(PrintInt(n, w)) == n <==> n < Pow256(w)
  {
    IntBound(PrintInt(n, w));
    if n < Pow256(w) { IntInverts(n, w); }
  }

  function Take(s: Bytes, n: nat): Parsed<Bytes> {
    if |s| < n then Fail else Ok(s[..n], s[n..])
  }

  function ParseInt(s: Bytes, w: nat): (r: Parsed<nat>)
    ensures r.Ok? ==> r.value < Pow256(w)
  {
    var (bytes, rest) :- Take(s, w);
    IntBound(bytes);
    Ok(IntOf(bytes), rest)
  }

  lemma TakeInverts(s: Bytes, tail: Bytes)
    ensures Take(s + tail, |s|) == Ok(s, tail)
  {
    assert (s + tail)[..|s|] == s && (s + tail)[|s|..] == tail;
  }

  lemma ParseIntInverts(n: nat, w: nat, tail: Bytes)
    requires n < Pow256(w)
    ensures ParseInt(PrintInt(n, w) + tail, w) == Ok(n, tail)
  {
    TakeInverts(PrintInt(n, w), tail);
    IntInverts(n, w);
  }

  /** The widths that occur. */
  lemma Widths()
    ensures Pow256(1) == 256 && Pow256(2) == 65536 && Pow256(4) == 0x1_0000_0000
    ensures Pow256(8) == 0x1_0000_0000_0000_0000
  {
    assert Pow256(3) == 16777216;
    assert Pow256(5) == 256 * Pow256(4);
    assert Pow256(6) == 256 * Pow256(5);
    assert Pow256(7) == 256 * Pow256(6);
  }

  function Zeros(n: nat): (s: Bytes)
    ensures |s| == n
  {
    seq(n, i => 0)
  }

  /** A hash in its 32-byte field: shorter hashes are followed by zeros. */
  function Fixed(h: Bytes): (s: Bytes)
    ensures |s| == HASH_SIZE
    ensures |h| == HASH_SIZE ==> s == h
  {
    if |h| >= HASH_SIZE then h[..HASH_SIZE] else h + Zeros(HASH_SIZE - |h|)
  }

  /* ---- Lists of fields ---- */

  function PrintMany<T(!new)>(emit: (T, Bytes) -> Bytes, xs: seq<T>, tail: Bytes): Bytes {
    if xs == [] then tail else emit(xs[0], PrintMany(emit, xs[1..], tail))
  }

  function ParseMany<T>(parse: Bytes -> Parsed<T>, s: Bytes, n: nat): Parsed<seq<T>>
    decreases n
  {
    if n == 0 then Ok([], s)
    else
      var (x, s1) :- parse(s);
      var (xs, s2) :- ParseMany(parse, s1, n - 1);
      Ok([x] + xs, s2)
  }

  function Map<T, U>(f: T -> U, xs: seq<T>): (r: seq<U>)
    ensures |r| == |xs| && forall i :: 0 <= i < |xs| ==> r[i] == f(xs[i])
  {
    seq(|xs|, i requires 0 <= i < |xs| => f(xs[i]))
  }

  /** Whatever tail follows, parsing undoes printing up to back. */
  ghost predicate Inverts<T(!new)>(emit: (T, Bytes) -> Bytes, parse: Bytes -> Parsed<T>, back: T -> T, x: T) {
    forall tail :: parse(emit(x, tail)) == Ok(back(x), tail)
  }

  lemma {:induction false} ManyInverts<T(!new)>(
                                                emit: (T, Bytes) -> Bytes, parse: Bytes -> Parsed<T>,
                                                back: T -> T, xs: seq<T>, tail: Bytes)
    requires forall i :: 0 <= i < |xs| ==> Inverts(emit, parse, back, xs[i])
    ensures ParseMany(parse, PrintMany(emit, xs, tail), |xs|) == Ok(Map(back, xs), tail)
    decreases |xs|
  {
    if xs == [] {
      assert Map(back, xs) == [];
    } else {
      assert Inverts(emit, parse, back, xs[0]);
      assert forall i :: 0 <= i < |xs[1..]| ==> xs[1..][i] == xs[i + 1];
      ManyInverts(emit, parse, back, xs[1..], tail);
      assert Map(back, xs) == [back(xs[0])] + Map(back, xs[1..]);
    }
  }

  /** A printer that puts its own bytes in front of any tail. */
  ghost predicate Prefixes<T(!new)>(emit: (T, Bytes) -> Bytes) {
    forall x, mid, tail :: emit(x, mid + tail) == emit(x, mid) + tail
  }

  lemma {:induction false} PrintManyTail<T(!new)>(emit: (T, Bytes) -> Bytes, xs: seq<T>, tail: Bytes)
    requires Prefixes(emit)
    ensures PrintMany(emit, xs, tail) == PrintMany(emit, xs, []) + tail
    decreases |xs|
  {
    if xs != [] { PrintManyTail(emit, xs[1..], tail); }
  }

  /* ---- The 16-bit bitmap ---- */

  /** The bits of a set of nibbles from bit i on. */
  function Bits(s: set<Nibble>, i: nat): nat
    requires i <= 16
    decreases 16 - i
  {
    if i == 16 then 0 else (if i in s then 1 else 0) + 2 * Bits(s, i + 1)
  }

  predicate HasBit(b: nat, i: nat) {
    if i == 0 then b % 2 == 1 else HasBit(b / 2, i - 1)
  }

  lemma BitsHalf(s: set<Nibble>, i: nat)
    requires i < 16
    ensures Bits(s, i) / 2 == Bits(s, i + 1) && (Bits(s, i) % 2 == 1 <==> i in s)
  {
  }

  lemma {:induction false} BitsHave(s: set<Nibble>, from: nat, i: nat)
    requires from + i < 16
    ensures HasBit(Bits(s, from), i) <==> from + i in s
    decreases i
  {
    BitsHalf(s, from);
    if i > 0 {
      BitsHave(s, from + 1, i - 1);
    }
  }

  lemma {:induction false} BitsBound(s: set<Nibble>, i: nat, p: nat)
    requires i <= 16 && p == Pow2(16 - i)
    ensures Bits(s, i) < p
    decreases 16 - i
  {
    if i < 16 { BitsBound(s, i + 1, Pow2(15 - i)); }
  }

  function Pow2(n: nat): nat {
    if n == 0 then 1 else 2 * Pow2(n - 1)
  }

  /** A set of nibbles fits the bitmap and is read off it again. */
  lemma BitmapInverts(s: set<Nibble>)
    ensures Bits(s, 0) < Pow256(2)
    ensures forall i: Nibble :: HasBit(Bits(s, 0), i) <==> i in s
  {
    Widths();
    Pow2Sixteen();
    BitsBound(s, 0, Pow2(16));
    forall i: Nibble ensures HasBit(Bits(s, 0), i) <==> i in s { BitsHave(s, 0, i); }
  }

  lemma Pow2Sixteen()
    ensures Pow2(16) == 65536
  {
    assert Pow2(4) == 16;
    assert Pow2(8) == 256;
    assert Pow2(12) == 4096;
  }

  /* ---- One field for each set bit ---- */

  function PrintWhere<T>(emit: (T, Bytes) -> Bytes, m: map<Nibble, T>, i: nat, tail: Bytes): Bytes
    requires i <= FANOUT
    decreases FANOUT - i
  {
    if i == FANOUT then tail
    else if i in m then emit(m[i], PrintWhere(emit, m, i + 1, tail))
    else PrintWhere(emit, m, i + 1, tail)
  }

  function ParseWhere<T>(parse: Bytes -> Parsed<T>, s: Bytes, bitmap: nat, i: nat): Parsed<map<Nibble, T>>
    requires i <= FANOUT
    decreases FANOUT - i
  {
    if i == FANOUT then Ok(map[], s)
    else if HasBit(bitmap, i) then
      var (x, s1) :- parse(s);
      var (m, s2) :- ParseWhere(parse, s1, bitmap, i + 1);
      Ok(m[i := x], s2)
    else ParseWhere(parse, s, bitmap, i + 1)
  }

  function MapValues<T, U>(f: T -> U, m: map<Nibble, T>, from: nat): map<Nibble, U> {
    map i | i in m && i >= from :: f(m[i])
  }

  lemma MapValuesNext<T, U>(f: T -> U, m: map<Nibble, T>, i: nat)
    requires i < FANOUT
    ensures MapValues(f, m, i) == if i in m then MapValues(f, m, i + 1)[i := f(m[i])] else MapValues(f, m, i + 1)
  {
  }

  lemma {:induction false} WhereInverts<T(!new)>(
                                                 emit: (T, Bytes) -> Bytes, parse: Bytes -> Parsed<T>,
                                                 back: T -> T, m: map<Nibble, T>, i: nat, tail: Bytes)
    requires i <= FANOUT && forall j :: j in m ==> Inverts(emit, parse, back, m[j])
    ensures ParseWhere(parse, PrintWhere(emit, m, i, tail), Bits(m.Keys, 0), i) == Ok(MapValues(back, m, i), tail)
    decreases FANOUT - i
  {
    if i == FANOUT {
      assert MapValues(back, m, i) == map[];
    } else {
      BitmapInverts(m.Keys);
      WhereInverts(emit, parse, back, m, i + 1, tail);
      MapValuesNext(back, m, i);
      if i in m { assert Inverts(emit, parse, back, m[i]); }
    }
  }

  lemma {:induction false} PrintWhereTail<T(!new)>(emit: (T, Bytes) -> Bytes, m: map<Nibble, T>, i: nat, tail: Bytes)
    requires i <= FANOUT && Prefixes(emit)
    ensures PrintWhere(emit, m, i, tail) == PrintWhere(emit, m, i, []) + tail
    decreases FANOUT - i
  {
    if i < FANOUT { PrintWhereTail(emit, m, i + 1, tail); }
  }

  lemma SizeStep(i: nat, size: nat, rest: nat, tail: nat)
    requires i < FANOUT && rest <= (FANOUT - (i + 1)) * size + tail
    ensures size + rest <= (FANOUT - i) * size + tail
  {
  }

  /** At most size bytes for each of the sixteen. */
  lemma {:induction false} PrintWhereSize<T(!new)>(emit: (T, Bytes) -> Bytes, m: map<Nibble,
                                                   T>, i: nat, tail: Bytes, size: nat)
    requires i <= FANOUT && forall j, t :: j in m ==> |emit(m[j], t)| <= size + |t|
    ensures |PrintWhere(emit, m, i, tail)| <= (FANOUT - i) * size + |tail|
    decreases FANOUT - i
  {
    if i < FANOUT {
      PrintWhereSize(emit, m, i + 1, tail, size);
      var rest := PrintWhere(emit, m, i + 1, tail);
      SizeStep(i, size, |rest|, |tail|);
      if i in m { assert |emit(m[i], rest)| <= size + |rest|; }
    }
  }
}
