/** The DMM-Trie over all page ids, as a state machine: puts, commits, cached page reads,
    and the descent shared by Get and GetProof. */
module TrieState {
  import opened Types
  import opened Pages
  import opened Chains
  import opened PageCommits
  import opened ValueLog
  import opened History
  import opened PageSpecs

  datatype CacheKey = CacheKey(version: nat, pid: Path)

  /** current is current_version_, put is put_cache_, cache is lru_cache_ without its order. */
  datatype State = State(current: nat, put: map<Path, Bytes>, chains: map<Path, Chain>,
                         cache: map<CacheKey, Page>, log: Log)

  const NEW_TRIE := State(0, map[], map[], map[], EMPTY_LOG)

  function ChainOf(s: State, pid: Path): Chain {
    if pid in s.chains then s.chains[pid] else NEW_CHAIN
  }

  /* ---- Buffering writes ---- */

  function Put(s: State, version: nat, key: Path, value: Bytes): State {
    if version < s.current || value == [] then s
    else s.(current := version, put := s.put[key := value])
  }

  function Delete(s: State, version: nat, key: Path): State {
    if version < s.current then s
    else s.(current := version, put := s.put[key := []])
  }

  /* ---- Reading pages ---- */

  /** GetPage: from the cache, else rebuilt by LoadPage and cached. */
  function GetPage(s: State, version: nat, pid: Path): (Loaded, State) {
    var key := CacheKey(version, pid);
    if key in s.cache then (Found(s.cache[key]), s)
    else match LoadPage(ChainOf(s, pid), s.current, version)
         case Found(p) => (Found(p), s.(cache := s.cache[key := p]))
         case other => (other, s)
  }

  /** Between and during commits any cached page may be evicted, except the pages the
      running commit w has just written: the cache is larger than a commit. */
  function Evict(s: State, keys: set<CacheKey>, w: nat): State {
    s.(cache := map k | k in s.cache && (k !in keys || k.version == w) :: s.cache[k])
  }

  /* ---- Committing ---- */

  /** The hash read from the child page at the commit's version. The lemmas of TrieRuns show
      that the page is there; a missing one, a null dereference in the source, reads as "". */
  function ChildRootHash(s: State, w: nat, q: Path): Bytes {
    match GetPage(s, w, q).0
    case Found(p) => if p.root.Some? then p.root.value.hash else []
    case _ => []
  }

  function MakeCall(s: State, log: Log, w: nat, pid: Path, nibs: Path): (Call, Log) {
    if |nibs| == 2 then (Call(nibs, NO_LOCATION, [], ChildRootHash(s, w, pid + nibs)), log)
    else
      var value := if pid + nibs in s.put then s.put[pid + nibs] else [];
      var (loc, log') := Append(log, Record(w, pid + nibs, value));
      (Call(nibs, loc, value, []), log')
  }

  function MakeCalls(s: State, log: Log, w: nat, pid: Path, nibs: seq<Path>): (seq<Call>, Log)
    decreases |nibs|
  {
    if nibs == [] then ([], log)
    else
      var (call, log1) := MakeCall(s, log, w, pid, nibs[0]);
      var (calls, log2) := MakeCalls(s, log1, w, pid, nibs[1..]);
      ([call] + calls, log2)
  }

  /** The page an iteration starts from: the newest version found, else a new page. */
  function OldPage(s: State, pid: Path): Page {
    match GetPage(s, ChainOf(s, pid).cur, pid).0
    case Found(p) => p
    case _ => EMPTY_PAGE
  }

  /** What OldPage may have found. */
  ghost predicate CanOpen(s: State, pid: Path, p: Page) {
    var key := CacheKey(ChainOf(s, pid).cur, pid);
    p == EMPTY_PAGE || (key in s.cache && p == s.cache[key]) ||
    LoadPage(ChainOf(s, pid), s.current, key.version) == Found(p)
  }

  /** Whichever page is opened, the batch reaches the children whose slots it has lost. */
  ghost predicate RefilledAt(s: State, pid: Path, batch: map<Path, Bytes>, loss: Loss) {
    loss.Slotless? && Touches(batch, pid) ==> forall p :: CanOpen(s, pid, p) ==> Refilled(p, pid, batch)
  }

  /** One iteration of the main loop of CalcRootHash. The page found under its old key is
      updated and re-keyed to version w. A page of another shape, which only keys of
      different lengths could make, is left alone. */
  function CommitOne(H: Hash, L: nat, s: State, w: nat, pid: Path, nibs: seq<Path>): State {
    var c, p := ChainOf(s, pid), OldPage(s, pid);
    var (calls, log') := MakeCalls(s, s.log, w, pid, nibs);
    if !Shaped(p, Kind(L, pid)) || !ValidCalls(calls, Kind(L, pid)) then s
    else
      var (c', q) := CommitPage(H, c, p, pid, w, calls, Kind(L, pid));
      Rekey(s, w, pid, c', q, log')
  }

  /** The state with a page's new chain, and the page cached under its new key only. */
  function Rekey(s: State, w: nat, pid: Path, c: Chain, q: Page, log: Log): State {
    s.(chains := s.chains[pid := c],
       cache := (s.cache - {CacheKey(ChainOf(s, pid).cur, pid)})[CacheKey(w, pid) := q],
       log := log)
  }

  /** What CalcRootHash does to one page id: its nibbles are the distinct pieces of the
      touched keys that follow the page id. */
  datatype Work = Work(pid: Path, nibs: seq<Path>)

  function CommitAll(H: Hash, L: nat, s: State, w: nat, plan: seq<Work>, evict: seq<set<CacheKey>>): State
    decreases |plan|
  {
    if plan == [] then s
    else if evict == [] then CommitAll(H, L, CommitOne(H, L, s, w, plan[0].pid, plan[0].nibs), w, plan[1..], [])
    else CommitAll(H, L, CommitOne(H, L, Evict(s, evict[0], w), w, plan[0].pid, plan[0].nibs), w, plan[1..], evict[1..])
  }

  /** CalcRootHash: the whole plan, then an empty put cache. evict[i] is what the cache
      drops before iteration i, if anything. */
  function CalcRootHash(H: Hash, L: nat, s: State, w: nat, plan: seq<Work>, evict: seq<set<CacheKey>>): State {
    CommitAll(H, L, s, w, plan, evict).(put := map[])
  }
}
