/** Shared vocabulary: bytes, nibble paths, hash functions and the fixed
    thresholds of lib/DMMTrie.hpp and lib/common.hpp. */
module Types {

  datatype Option<+T> = None | Some(value: T)

  type Byte = b: int | 0 <= b < 256
  type Bytes = seq<Byte>

  /** One hexadecimal digit of a key, after GetIndex has mapped it to 0..15. */
  type Nibble = n: int | 0 <= n < 16

  /** A key, or the page id formed by a prefix of a key. */
  type Path = seq<Nibble>

  /** Any hash function: nothing is assumed of it unless a lemma says so. */
  type Hash = Bytes -> Bytes

  const FANOUT: nat := 16
  const TD: nat := 128
  const TB: nat := 256
  const PAGE_SIZE: nat := 12288
  const HASH_SIZE: nat := 32

  /** Where a value sits in the value log. */
  datatype Location = Location(fileID: nat, offset: nat, size: nat)

  const NO_LOCATION := Location(0, 0, 0)

  /** std::to_string on an unsigned integer. */
  function Decimal(n: nat): (s: Bytes)
    ensures |s| > 0
    ensures forall i :: 0 <= i < |s| ==> 48 <= s[i] <= 57
  {
    if n < 10 then [48 + n] else Decimal(n / 10) + [48 + n % 10]
  }

  /** The lower-case character of a nibble. */
  function HexChar(n: Nibble): (c: Byte) {
    if n < 10 then 48 + n else 87 + n
  }

  function HexString(p: Path): (s: Bytes)
    ensures |s| == |p|
    ensures forall i :: 0 <= i < |p| ==> s[i] == HexChar(p[i])
  {
    seq(|p|, i requires 0 <= i < |p| => HexChar(p[i]))
  }

  /** GetIndex: the value of a hexadecimal character, None where the source returns -1. */
  function GetIndex(c: Byte): Option<Nibble> {
    if 48 <= c <= 57 then Some(c - 48)
    else if 97 <= c <= 102 then Some(c - 97 + 10)
    else if 65 <= c <= 70 then Some(c - 65 + 10)
    else None
  }

  /** Reading keys through GetIndex loses nothing on keys of one letter case. */
  lemma GetIndexInvertsHexChar(n: Nibble, c: Byte)
    ensures GetIndex(HexChar(n)) == Some(n)
    ensures GetIndex(c) == Some(n) && !(65 <= c <= 70) ==> c == HexChar(n)
  {
  }
}
