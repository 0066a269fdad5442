/** VDLS: the append-only value log, as a value and as the class that grows it. */
module ValueLog {
  import opened Types

  const COMMA: Byte := 44
  const NEWLINE: Byte := 10
  const MAX_FILE_SIZE: nat := 64 * 1024 * 1024

  /** The bytes written so far to each data file; the last file is the current one. */
  datatype Log = Log(files: seq<Bytes>)

  const EMPTY_LOG := Log([[]])

  function Record(version: nat, key: Path, value: Bytes): Bytes {
    Decimal(version) + [COMMA] + HexString(key) + [COMMA] + value + [NEWLINE]
  }

  /** No file, or no room for so much in the current one. */
  predicate Rolls(log: Log, size: nat) {
    log.files == [] || |log.files[|log.files| - 1]| + size > MAX_FILE_SIZE
  }

  /** WriteValue: appends a record, in a new file if the current one has no room. */
  function Append(log: Log, record: Bytes): (Location, Log) {
    if Rolls(log, |record|) then
      (Location(|log.files|, 0, |record|), Log(log.files + [record]))
    else
      var n := |log.files| - 1;
      (Location(n, |log.files[n]|, |record|), Log(log.files[n := log.files[n] + record]))
  }

  predicate ValidLocation(log: Log, loc: Location) {
    loc.fileID < |log.files| && loc.offset + loc.size <= |log.files[loc.fileID]|
  }

  function Slice(log: Log, loc: Location): Bytes
    requires ValidLocation(log, loc)
  {
    log.files[loc.fileID][loc.offset..loc.offset + loc.size]
  }

  /** getline: what precedes the first delimiter, and what follows it. */
  function Before(s: Bytes, d: Byte): Bytes {
    if s == [] || s[0] == d then [] else [s[0]] + Before(s[1..], d)
  }

  function After(s: Bytes, d: Byte): Bytes {
    if s == [] then [] else if s[0] == d then s[1..] else After(s[1..], d)
  }

  function FirstLine(value: Bytes): Bytes { Before(value, NEWLINE) }

  /** ReadValue's parse: skip the version and the key, read one line. */
  function ParseValue(line: Bytes): Bytes {
    FirstLine(After(After(line, COMMA), COMMA))
  }

  /** Bytes past the written end of a file are not part of the model and read as "". */
  function ReadValue(log: Log, loc: Location): Bytes {
    if ValidLocation(log, loc) then ParseValue(Slice(log, loc)) else []
  }

  lemma {:induction false} AfterSkips(s: Bytes, t: Bytes, d: Byte)
    requires d !in s
    ensures After(s + [d] + t, d) == t
    decreases |s|
  {
    if s == [] {
      assert s + [d] + t == [d] + t;
    } else {
      assert (s + [d] + t)[0] == s[0] && (s + [d] + t)[1..] == s[1..] + [d] + t;
      AfterSkips(s[1..], t, d);
    }
  }

  lemma {:induction false} BeforeStops(s: Bytes, t: Bytes, d: Byte)
    ensures Before(s + [d] + t, d) == Before(s, d)
    decreases |s|
  {
    if s == [] {
      assert s + [d] + t == [d] + t;
    } else {
      assert (s + [d] + t)[0] == s[0] && (s + [d] + t)[1..] == s[1..] + [d] + t;
      BeforeStops(s[1..], t, d);
    }
  }

  /** A record read back gives the value up to its first newline. */
  lemma ParseInvertsRecord(version: nat, key: Path, value: Bytes)
    ensures ParseValue(Record(version, key, value)) == FirstLine(value)
  {
    var rest := HexString(key) + [COMMA] + (value + [NEWLINE]);
    assert Record(version, key, value) == Decimal(version) + [COMMA] + rest;
    AfterSkips(Decimal(version), rest, COMMA);
    AfterSkips(HexString(key), value + [NEWLINE], COMMA);
    assert value + [NEWLINE] == value + [NEWLINE] + [];
    BeforeStops(value, [], NEWLINE);
  }

  lemma {:induction false} FirstLineWhole(value: Bytes)
    ensures FirstLine(value) == value <==> NEWLINE !in value
    decreases |value|
  {
    if value != [] && value[0] != NEWLINE {
      FirstLineWhole(value[1..]);
      assert value == [value[0]] + value[1..];
    }
  }

  /** Exactly the values without a newline are read back unchanged. */
  lemma ReadsBackIff(version: nat, key: Path, value: Bytes)
    ensures ParseValue(Record(version, key, value)) == value <==> NEWLINE !in value
  {
    ParseInvertsRecord(version, key, value);
    FirstLineWhole(value);
  }

  /** One log extends another when nothing written is ever changed or moved. */
  ghost predicate Extends(a: Log, b: Log) {
    |a.files| <= |b.files| && forall i :: 0 <= i < |a.files| ==> a.files[i] <= b.files[i]
  }

  lemma ExtendsKeeps(a: Log, b: Log, loc: Location)
    requires Extends(a, b) && ValidLocation(a, loc)
    ensures ValidLocation(b, loc) && Slice(b, loc) == Slice(a, loc)
  {
    var f, g := a.files[loc.fileID], b.files[loc.fileID];
    assert f <= g && g[..|f|] == f;
  }

  lemma ExtendsTransitive(a: Log, b: Log, c: Log)
    requires Extends(a, b) && Extends(b, c)
    ensures Extends(a, c)
  {
  }

  /** What Append returns locates the new record, and nothing written earlier moves. */
  lemma AppendLocates(log: Log, record: Bytes)
    ensures var (loc, log') := Append(log, record);
            Extends(log, log') && ValidLocation(log', loc) && Slice(log', loc) == record
  {
  }

  /* ---- Runs of writes ---- */

  function WriteAll(log: Log, records: seq<Bytes>): (seq<Location>, Log)
    decreases |records|
  {
    if records == [] then ([], log)
    else
      var (loc, log1) := Append(log, records[0]);
      var (locs, log2) := WriteAll(log1, records[1..]);
      ([loc] + locs, log2)
  }

  predicate Disjoint(a: Location, b: Location) {
    a.fileID != b.fileID || a.offset + a.size <= b.offset || b.offset + b.size <= a.offset
  }

  /** loc starts where nothing had been written in log. */
  predicate Past(log: Log, loc: Location) {
    loc.fileID >= |log.files| || loc.offset >= |log.files[loc.fileID]|
  }

  lemma PastExtends(a: Log, b: Log, loc: Location)
    requires Extends(a, b) && Past(b, loc)
    ensures Past(a, loc)
  {
  }

  lemma {:induction false} WriteAllPast(log: Log, records: seq<Bytes>)
    ensures var (locs, log') := WriteAll(log, records);
            |locs| == |records| && Extends(log, log') &&
            forall i :: 0 <= i < |locs| ==> Past(log, locs[i])
    decreases |records|
  {
    if records != [] {
      AppendLocates(log, records[0]);
      var (loc, log1) := Append(log, records[0]);
      WriteAllPast(log1, records[1..]);
      var (locs, log2) := WriteAll(log1, records[1..]);
      ExtendsTransitive(log, log1, log2);
      forall i | 0 <= i < |locs| ensures Past(log, locs[i]) { PastExtends(log, log1, locs[i]); }
    }
  }

  /** Over any run of writes every returned location keeps reading its own record,
      across file rollovers too, and no two returned extents overlap. */
  lemma {:induction false} RunReadsBack(log: Log, records: seq<Bytes>)
    ensures var (locs, log') := WriteAll(log, records);
            |locs| == |records| &&
            (forall i :: 0 <= i < |locs| ==> ValidLocation(log', locs[i]) && Slice(log', locs[i]) == records[i]) &&
            (forall i, j :: 0 <= i < j < |locs| ==> Disjoint(locs[i], locs[j]))
    decreases |records|
  {
    if records != [] {
      AppendLocates(log, records[0]);
      var (loc, log1) := Append(log, records[0]);
      RunReadsBack(log1, records[1..]);
      WriteAllPast(log1, records[1..]);
      var (locs, log2) := WriteAll(log1, records[1..]);
      ExtendsKeeps(log1, log2, loc);
      forall j | 0 <= j < |locs| ensures Disjoint(loc, locs[j]) {
        assert Past(log1, locs[j]);
      }
    }
  }

  /** loc comes right after at if there is room, and else at the start of the next file. */
  predicate Follows(at: Location, loc: Location) {
    if at.offset + at.size + loc.size <= MAX_FILE_SIZE then
      loc.fileID == at.fileID && loc.offset == at.offset + at.size
    else loc.fileID == at.fileID + 1 && loc.offset == 0
  }

  /** The place just before the end of what has been written. */
  predicate AtEnd(log: Log, at: Location) {
    |log.files| == at.fileID + 1 && |log.files[at.fileID]| == at.offset + at.size
  }

  lemma AppendFollows(log: Log, record: Bytes, at: Location)
    requires AtEnd(log, at)
    ensures var (loc, log') := Append(log, record);
            Follows(at, loc) && loc.size == |record| && AtEnd(log', loc)
  {
  }

  /** A file is started only by a record that the file before it has no room for: over any
      run of writes each record lies where the one before it ends, or begins the next file. */
  lemma {:induction false} RunFills(log: Log, records: seq<Bytes>, at: Location)
    requires AtEnd(log, at)
    ensures var locs := WriteAll(log, records).0;
            |locs| == |records| && (records != [] ==> Follows(at, locs[0])) &&
            (forall i :: 0 <= i < |locs| ==> locs[i].size == |records[i]|) &&
            forall i :: 0 < i < |locs| ==> Follows(locs[i - 1], locs[i])
    decreases |records|
  {
    if records != [] {
      var (loc, log1) := Append(log, records[0]);
      AppendFollows(log, records[0], at);
      RunFills(log1, records[1..], loc);
      var locs := WriteAll(log1, records[1..]).0;
      assert WriteAll(log, records).0 == [loc] + locs;
      forall i | 0 < i < |[loc] + locs| ensures Follows(([loc] + locs)[i - 1], ([loc] + locs)[i]) {
        if i > 1 { assert ([loc] + locs)[i] == locs[i - 1] && ([loc] + locs)[i - 1] == locs[i - 2]; }
      }
    }
  }

  /** No file outgrows MAX_FILE_SIZE as long as no record does. */
  lemma {:induction false} RunFits(log: Log, records: seq<Bytes>)
    requires forall i :: 0 <= i < |log.files| ==> |log.files[i]| <= MAX_FILE_SIZE
    requires forall i :: 0 <= i < |records| ==> |records[i]| <= MAX_FILE_SIZE
    ensures var (locs, log') := WriteAll(log, records);
            forall i :: 0 <= i < |log'.files| ==> |log'.files[i]| <= MAX_FILE_SIZE
    decreases |records|
  {
    if records != [] {
      AppendLocates(log, records[0]);
      var (loc, log1) := Append(log, records[0]);
      RunFits(log1, records[1..]);
      assert WriteAll(log, records).1 == WriteAll(log1, records[1..]).1;
    }
  }

  /** Every place reads back its value. */
  ghost predicate Kept(log: Log, written: map<Location, Bytes>) {
    forall loc :: loc in written ==>
      ValidLocation(log, loc) && loc.size > 0 && ReadValue(log, loc) == FirstLine(written[loc])
  }

  /** A write returns a new place and keeps the old ones. */
  lemma WriteKeeps(log: Log, written: map<Location, Bytes>, version: nat, key: Path, value: Bytes)
    requires Kept(log, written)
    ensures var (loc, log') := Append(log, Record(version, key, value));
            loc !in written && Kept(log', written[loc := value])
  {
    var record := Record(version, key, value);
    var (loc, log') := Append(log, record);
    AppendLocates(log, record);
    ParseInvertsRecord(version, key, value);
    forall old' | old' in written
        ensures ValidLocation(log', old') && ReadValue(log', old') == ReadValue(log, old') && old' != loc {
      ExtendsKeeps(log, log', old');
    }
  }

  /** The mutable store: files_[i] is what has been written to data file i, and writes go to
      the file current_fileID_ at current_offset_. */
  class VDLS {
    var files: seq<Bytes>
    var currentFileID: nat
    var currentOffset: nat
    /** The value written at each place that was ever returned. */
    ghost var written: map<Location, Bytes>

    /** Every place ever returned reads back the value written there. */
    ghost predicate Valid()
      reads this
    {
      |files| == currentFileID + 1 && currentOffset == |files[currentFileID]| && Kept(Contents(), written)
    }

    function Contents(): Log
      reads this
    {
      Log(files)
    }

    constructor ()
      ensures Valid() && Contents() == EMPTY_LOG && written == map[]
    {
      files := [[]];
      currentFileID := 0;
      currentOffset := 0;
      written := map[];
    }

    method WriteValue(version: nat, key: Path, value: Bytes) returns (loc: Location)
      requires Valid() && |Record(version, key, value)| <= MAX_FILE_SIZE
      modifies this
      ensures Valid()
      ensures (loc, Contents()) == Append(old(Contents()), Record(version, key, value))
      ensures Extends(old(Contents()), Contents())
      ensures loc !in old(written) && written == old(written)[loc := value]
      ensures ReadValue(Contents(), loc) == FirstLine(value)
      ensures loc.offset + loc.size <= MAX_FILE_SIZE
      ensures loc.size == |Record(version, key, value)|
      ensures loc.fileID == old(currentFileID) <==> old(currentOffset) + loc.size <= MAX_FILE_SIZE
      ensures if loc.fileID == old(currentFileID) then loc.offset == old(currentOffset)
              else loc.fileID == old(currentFileID) + 1 && loc.offset == 0
      ensures currentFileID == loc.fileID && currentOffset == loc.offset + loc.size
    {
      var record := Record(version, key, value);
      ghost var log := Contents();
      if currentOffset + |record| > MAX_FILE_SIZE {
        currentFileID := currentFileID + 1;
        currentOffset := 0;
        files := files + [[]];
      }
      files := files[currentFileID := files[currentFileID] + record];
      currentOffset := currentOffset + |record|;
      loc := Location(currentFileID, currentOffset - |record|, |record|);
      assert [] + record == record;
      assert Contents().files == Append(log, record).1.files;
      written := written[loc := value];
      WriteKeeps(log, old(written), version, key, value);
    }

    /** ReadValue: at any place that WriteValue ever returned, the value written there up to
        its first newline, whatever was written since and into however many files. */
    method Read(loc: Location) returns (value: Bytes)
      requires Valid() && ValidLocation(Contents(), loc)
      ensures loc in written ==> value == FirstLine(written[loc])
      ensures value == ReadValue(Contents(), loc)
    {
      var line := files[loc.fileID][loc.offset..loc.offset + loc.size];
      value := Before(After(After(line, COMMA), COMMA), NEWLINE);
    }
  }
}
