# LETUS in Dafny

LETUS is a versioned key-value store whose contents at every version are authenticated by
one root hash. This project models its three cooperating parts and proves that together
they are a simple thing: a list of committed batches, the map they add up to, and the
Merkle hash of that map.

* **DMM-Trie.** A 16-ary Merkle trie cut into two-level pages. A commit brings every touched
  page to its version, deepest pages first, and logs each node change in the page's active
  delta page. A delta page is frozen after 128 items, and the page is checkpointed after 256,
  or at once if a batch is too large for two delta pages.
* **LSVPS.** The page store. It rebuilds a page at a version from a checkpoint and the delta
  pages linked to it, finds stored pages through a buffer and a two-level index in files, and
  keeps the active delta pages in a pool with a file behind it.
* **VDLS.** The append-only value log that the leaves point into.

Keys are sequences of nibbles of one length L. The hash function is a parameter; statements
about the byte formats take 32-byte hashes where it matters. Versions are natural numbers.

## How the proofs are built

| layer | modules |
|---|---|
| the simple store: batches, contents, Merkle hash; what clients ask of it | `History`, `Clients` |
| page values, `UpdatePage`, logged items, replay | `Types`, `Pages`, `Replays` |
| one page id: active delta page, frozen pages, checkpoints, `LoadPage` | `Chains`, `ChainInvariant`, `PageCommits`, `Loads`, `Counting`, `Evolution`, `Copies`, `Lost`, `StaleCounts`, `RootSlots` |
| what a page must hold in terms of the simple store | `PageSpecs` |
| the trie as a state machine over all page ids, and its runs | `TrieState`, `TrieInvariant`, `TrieCommit`, `TrieRuns`, `TrieReads`, `TrieTheorems`, `TrieSteps`, `TrieCounters`, `TrieGrowth`, `TrieSizes`, `TrieSlots`, `LostReads`, `LostRuns`, `StaleRuns`, `Historical` |
| value log | `ValueLog` |
| index files and page lookup | `PageTable`, `MemIndexTable` |
| byte formats | `Fields`, `DeltaCodec`, `BaseCodec`, `BlockCodec`, `FileCodec`, `Layouts`, `ReadBacks`, `Reread`, `Sizes` |
| pool of active delta pages | `DeltaPool`, `ActiveDeltaPages` |
| the whole store: the trie on page table, files, bytes and pool | `Storage`, `TriePool`, `PoolCommits`, `StoreRuns`, `ClientRuns` |
| LRU cache | `PageCache`, `LruCache` |
| the mutable objects: nodes, pages, delta pages, version tables, the loops of `LoadPage`, the iteration order, the trie itself | `PageObjects`, `BasePages`, `PageWriter`, `PageLoader`, `Plans`, `TrieCache`, `TrieLoop`, `TrieDescent`, `DmmTrie` |

The invariant of one page id says that its chain rebuilds, for every version, the page as the
commits left it; `snaps` is the record of those pages. The invariant of the trie says this of
every page id at once, that the recorded pages are what `History` prescribes, and that every
cached page is one of them. The methods of the classes are proved equal to the transitions of
the state machine (`TrieState`, `Chains`, `DeltaPool`, `PageTable`, `PageCache`), and the
lemmas say what holds of all runs of those.

What the history must be is read off the calls alone: `Clients` says which puts and deletes are
accepted and what the last commit must have made of them, `ClientRuns` that every run of the trie
and of the whole store leaves just that.

The parameter `loss` of many statements tells how much two pages may differ: `Lossless` only in
the keys of replayed leaves, which the source leaves empty (src/DMMTrie.cpp:1014); `Slotless`
also in the root's own slots, which a trip through a file always loses; `Hashless` also in
hashes, which it changes if they have not 32 bytes, as those of deleted keys have not. `Get`
needs only the weakest. Root hashes need hashes and, of every commit in a `Slotless` run, that
its batch has a key below each child whose slot is lost on a page it opens (`TrieRuns.Refills`).
Proofs need everything.

## What turned out not to hold

* **Old versions can be lost.** A batch of 128 or more pieces for a page whose active delta
  page is empty is checkpointed without freezing a delta page (src/DMMTrie.cpp:1198-1216).
  The versions between the last frozen delta page and that checkpoint then have no
  sentinel, and `LoadPage` answers the checkpoint. `LostRuns.LostInRun` is a run of puts and
  two commits after which `Get` at version 1 answers version 2.
* **A stale base count loses versions too.** `b_update_count_` does not survive the pool's
  file, and a recycled pool object keeps another page's (src/LSVPS.cpp:655-678). The checkpoint
  may then come before the delta page is full (src/DMMTrie.cpp:966-991); earlier versions have
  no sentinel, and older items still active are replayed over the newer checkpoint.
  `StaleRuns.StaleInRun` is a run of two commits of one key each after which `Get` answers a
  value at a version where the key did not exist. A delta page frozen later in the same commit
  does not help.
* **Exactly when.** `Lost.CommitLosesIff` says of one commit which versions it loses, from the
  two counts, the number of calls and the frozen versions; `Historical.RunIsCovered` says that
  after any run nothing is lost if and only if no commit took a checkpoint before it had frozen
  a delta page, and `Historical.GetHistorical` that `Get` is then right at every committed
  version. The newest version is never affected (`TrieTheorems.GetNewest`).
* **A base page read from a file has lost its root slots**, because `AddChild` fills them with
  its default arguments (src/DMMTrie.cpp:323, 352-356; lib/DMMTrie.hpp:116-117). `LoadPage` then
  replays delta items, whose root items set slots again, and a commit sets those it reaches.
  `Reread.LoadedProofIff` says that the root's proof node for a child is right if and only if
  replay has set the slots of all other children of the checkpoint, `Reread.LoadedUpdatesIff`
  that the root hash a commit computes is right if and only if every child of the checkpoint
  was set by replay or is reached by the commit. With nothing to replay that leaves pages with
  one child, and commits that reach all (`Reread.RereadProofIff`, `Reread.RereadUpdatesIff`);
  `Reread.RereadProofFails` and `Reread.RereadUpdatesFail` are a page where both go wrong. If
  every commit of a run reaches the children whose slots are lost, the root hash is right in
  the whole store (`StoreRuns.RootHashThroughFiles`). `BaseCodec.RecoverRestores` says that
  copying the children's versions and hashes back would repair the page.
* **The proof of a deleted key is accepted with no value**, not even with the empty one,
  because its leaf hash is "" and not the hash of "" (src/DMMTrie.cpp:158-159), unless
  something hashes to "": `TrieTheorems.ProofAcceptsIff`.
* **A value that contains a newline** reads back up to the newline only
  (lib/VDLS.hpp:167): `ValueLog.ReadsBackIff`.
* Where comments and code disagree the code is followed: the buffer of the page table is
  flushed whenever it is full, also within one version (lib/LSVPS.hpp:92); the copy made for
  a checkpoint is a deep one (src/DMMTrie.cpp:790-804, 983).

## Model

| member | source | states |
|---|---|---|
| TrieTheorems.GetNewest | src/DMMTrie.cpp:1088-1133 | in every run, whatever was buffered, committed, read, evicted, frozen, checkpointed or reloaded, `Get` at the newest committed version answers the last value written to the key, "" for a deleted or unknown key; no hypothesis about checkpoints |
| TrieTheorems.GetIsValue | src/DMMTrie.cpp:1088-1133 | the same at any committed version whose pages on the key's path are recoverable, and reading leaves the store in agreement with its history |
| ClientRuns.GetLastWrite | src/DMMTrie.cpp:1071-1145 | over the list of calls alone: after any run `Get` at the newest version answers what the last accepted write of the key before the last commit wrote, "" for a deletion; a write is accepted unless it puts "" or an accepted write before it has a newer version |
| ClientRuns.GetUnwritten | src/DMMTrie.cpp:1071-1145 | and "" for a key that no accepted write before the last commit names |
| ClientRuns.RefusedLeavesNothing | src/DMMTrie.cpp:1071-1086 | a put or delete that is not accepted is as if it had not been: whatever follows is a run without it and leaves the same state and history |
| ClientRuns.RunServes | src/DMMTrie.cpp:1071-1086 | version, buffer and recorded history of every run are what its puts, deletes and commits alone leave |
| ClientRuns.StoreGetLastWrite | src/DMMTrie.cpp:1071-1145 | the same in the whole store, with every page read through table, files, bytes and pool |
| ClientRuns.StoreRefusedLeavesNothing | src/DMMTrie.cpp:1071-1086 | and a refused put or delete is as if it had not been there, too |
| Clients.ValueIsLastWrite | src/DMMTrie.cpp:1071-1086 | call by call the simple store holds what the last accepted write before the last commit wrote |
| Clients.CurrentIsNewest | src/DMMTrie.cpp:1075-1085 | the version reached is the newest one that was accepted |
| Clients.RefusedIsNothing | src/DMMTrie.cpp:1135-1142 | a put or delete that is not accepted changes nothing, whatever calls follow |
| TrieTheorems.VacantAnswers | src/DMMTrie.cpp:1094-1099 | at a version that no commit made and of which the root's chain can be rebuilt `Get` answers "", `GetProof` an empty proof, and `GetRootHash` fails |
| Historical.GetHistorical | src/DMMTrie.cpp:1088-1133 | in every run, reloads with stale counts included, in which no commit takes a checkpoint of a page before it has frozen a delta page of it, `Get` is right at every committed version |
| Historical.NothingLost | src/DMMTrie.cpp:1198-1247 | in such a run every page of every path is recoverable at every version |
| Historical.RunIsCovered | src/DMMTrie.cpp:961-995 | after any run all versions of all pages are recoverable if and only if no commit of the run took a checkpoint of a page before it had frozen a delta page of it |
| Historical.RunHarmlessIff | src/DMMTrie.cpp:1198-1216 | where the counts are in step with the items, that is a commit of 128 or more pieces of a page whose active delta page is empty, and no other |
| Historical.CommitCovers | src/DMMTrie.cpp:961-995 | one page: after a commit all versions are recoverable if and only if they were before and the checkpoint, if any, comes after a frozen delta page, which the counts and the number of pieces decide |
| TrieTheorems.RootHashIsMerkle | src/DMMTrie.cpp:1295-1297 | `GetRootHash` at a committed version whose root page is recoverable is the recursive Merkle hash of the keys ever written and their values then, even in runs whose reloads lose root slots, as long as each commit has a key below every child whose slot the page it opens has lost |
| TrieTheorems.SameContentsSameHash | src/DMMTrie.cpp:1147-1251 | two runs that end with the same contents have the same newest root hash, however their writes were ordered, batched, cached, evicted, frozen or checkpointed, and whichever root slots were lost in files and set again by commits |
| TrieTheorems.ProofComplete | src/DMMTrie.cpp:1299-1346 | the proof of a live key has one node per nibble, node j for nibble L-1-j, carries the value, and is accepted against the root hash of the version |
| TrieTheorems.ProofAcceptsIff | src/DMMTrie.cpp:1348-1364 | under an injective hash the proof of a key ever written carries its value, "" for a deleted key, and is accepted with a value if and only if it is the key's value; with a deleted key, whose leaf hash is "", if and only if the value hashes to "" |
| Historical.ProofHistorical | src/DMMTrie.cpp:1348-1364 | the same equivalence at every committed version of any run that loses nothing |
| TrieTheorems.ProofOfAny | src/DMMTrie.cpp:1299-1346 | the proof of any key at a committed version carries its value and exactly the nodes of the Merkle tree on its path: of a key ever written one for each nibble, from the leaf's side up; of another, with the empty value, those there are, from the root down, until nothing below was written |
| TrieTheorems.VerifyAcceptsOne | src/DMMTrie.cpp:1348-1364 | under an injective hash one list of nodes and one root hash accept at most one value |
| TrieTheorems.GoodNodeHash | src/DMMTrie.cpp:333-350 | hashing a proof node with its own child's Merkle hash gives the Merkle hash of the node |
| TrieTheorems.NewestRecoverable | src/LSVPS.cpp:260-324 | the newest version of every page on a path is recoverable in every state |
| TrieRuns.RunAgrees | src/DMMTrie.cpp:1147-1293 | every reachable state agrees with the simple store: each chain, cached page and snapshot of every page id is what the committed history prescribes |
| TrieRuns.ApplyKeeps | src/DMMTrie.cpp:1073-1293 | each operation (put, delete, commit, page read, eviction, reload) keeps that agreement |
| TrieRuns.CommitKeepsTrie | src/DMMTrie.cpp:1147-1293 | `CalcRootHash` takes a trie that agrees with a history to one that agrees with the history and the buffered batch, hashes included even if opened pages had lost root slots, as long as the batch has a key below every child whose slot was lost |
| TrieRuns.LoopKeeps | src/DMMTrie.cpp:1179-1251 | the loop invariant of `CalcRootHash` from any point of its plan: done pages are as after the commit, the others as before |
| TrieRuns.ChildrenFirst | src/DMMTrie.cpp:50-55 | when the plan comes to a page, every longer touched page id has been dealt with |
| TrieRuns.HeadChildrenDone | src/DMMTrie.cpp:1219-1225 | each child page read while its parent is updated has been brought to the commit's version and carries its final hash |
| TrieCommit.WorkCalls | src/DMMTrie.cpp:1219-1239 | the calls made for a page pair each piece with its child's new root hash or with the place of its value in the log |
| TrieCommit.PageAfter | src/DMMTrie.cpp:1179-1249 | one page through a commit: its chain rebuilds all it could before and the new version, its snapshot meets the specification, its cache entries stay right |
| TrieCommit.OneKeeps | src/DMMTrie.cpp:1179-1249 | one iteration changes one page id only, and brings that page to the commit's version |
| TrieCommit.CacheAfter | src/DMMTrie.cpp:1515-1529 | re-keying the changed page leaves no stale entry: every cached version of the page is still what the store would rebuild |
| TrieInvariant.GetPageExact | src/DMMTrie.cpp:1472-1491 | a page read, cached or loaded, is exactly the page as the asked commit left it, nothing if the commit did not touch it, whenever the version is recoverable |
| TrieInvariant.GetPageKeeps | src/DMMTrie.cpp:1472-1491 | reading a page keeps the invariant of the whole trie |
| TrieReads.PathPage | src/DMMTrie.cpp:1088-1133 | the page of a path read at the version it had then meets the specification of that version |
| TrieReads.DescendRight | src/DMMTrie.cpp:1088-1133 | the descent from any even nibble ends at the right leaf, with the right proof nodes, or finds that the key is absent |
| TrieReads.VisitRight | src/DMMTrie.cpp:1299-1340 | the same from a page at hand |
| TrieSlots.RunSlotVersion | src/DMMTrie.cpp:1445-1448 | in every reachable state each slot of the newest page names the current version of the child page, 0 if it was never touched |
| TrieSlots.RunSlotHash | src/DMMTrie.cpp:333-350 | and carries the root hash of the newest child page |
| PageSpecs.SpecAfter | src/DMMTrie.cpp:912-959 | updating a page with the calls of a batch takes it from its specification before the batch to its specification after it |
| PageSpecs.UpdatesSlot | src/DMMTrie.cpp:938-959 | a call for two nibbles leaves its version and child hash in exactly that slot |
| PageSpecs.UpdatesLeaf | src/DMMTrie.cpp:918-936 | a call for one nibble leaves exactly that leaf with its version, place and hash, the empty hash for a deletion |
| PageSpecs.UpdatesHashed | src/DMMTrie.cpp:333-350 | updates keep every root slot equal to its child's version and hash, and every node's hash the hash of its sixteen slot hashes |
| PageSpecs.RootIsMerkle | src/DMMTrie.cpp:333-350 | the root hash of a page that meets its specification is the Merkle hash of the keys below it, its slot hashes those of its children |
| PageSpecs.UpdatesRecovered | src/DMMTrie.cpp:1219-1239 | updating a page whose root has lost slots with calls that reach all of those children makes root hash and slots right again |
| PageSpecs.RootHashIs | src/DMMTrie.cpp:1295-1297 | and such a page still has the Merkle hash as its root hash |
| Pages.ReplayRefinesUpdate | src/DMMTrie.cpp:998-1041 | replaying the items one `UpdatePage` logs, on the page it started from (null root included), gives the page it made, up to leaf keys |
| Replays.UpdateTwice | src/DMMTrie.cpp:998-1041 | replaying an update twice is replaying it once |
| Replays.Overwritten | src/DMMTrie.cpp:998-1041 | an older copy of an update is invisible once the update is applied again, whatever came between |
| Replays.ReapplySuffix | src/DMMTrie.cpp:998-1041 | re-applying any suffix of the log that made a page changes nothing |
| Replays.DeltaConcat | src/LSVPS.cpp:486-492 | bounding the halves of a version-sorted log each on its own is bounding the whole, though each half stops at its own first newer item |
| Replays.DeltaBeyond | src/LSVPS.cpp:486-492 | items newer than the bound do not matter |
| ChainInvariant.LogStep | src/DMMTrie.cpp:718-734 | logging the items of an update keeps the chain rebuilding every version, the open one now with the update |
| ChainInvariant.FreezeStep | src/DMMTrie.cpp:966-979 | freezing the active delta page keeps the chain rebuilding every version |
| ChainInvariant.CheckpointStep | src/DMMTrie.cpp:980-992 | so does a checkpoint |
| ChainInvariant.OversizeStep | src/DMMTrie.cpp:1241-1247 | and a checkpoint taken instead of logging |
| ChainInvariant.ActiveAbsorbed | src/LSVPS.cpp:486-492 | replaying the items still active onto the page they produced changes nothing |
| ChainInvariant.StoredGrows | src/DMMTrie.cpp:1450-1456 | a page stored under a new key changes nothing that was reachable before |
| PageCommits.StepKeeps | src/DMMTrie.cpp:912-995 | one logged `UpdatePage`, with the freeze and the checkpoint it may cause, keeps all versions rebuildable |
| PageCommits.StepsIsUpdates | src/DMMTrie.cpp:1219-1239 | logging, freezing and checkpointing do not affect the page |
| PageCommits.CommitKeeps | src/DMMTrie.cpp:1198-1247 | a page's share of a commit, logged or oversize, keeps its chain rebuilding every version it could and adds the new one |
| Counting.CommitSynced | src/DMMTrie.cpp:718-734 | after any commit the counters mean what they should: the number of active items, the number since the last checkpoint, one congruent to the other modulo 128, versions nondecreasing along the chain |
| Evolution.CommitEvolved | src/DMMTrie.cpp:1198-1247 | a commit adds stored pages under its own version only, freezes at most one delta page and moves the base at most to its own version |
| Evolution.RecoverableBefore | src/LSVPS.cpp:260-324 | a version recoverable after a commit was recoverable before it |
| Evolution.LoadDuringCommit | src/DMMTrie.cpp:1219-1247 | a page of the running commit that left the cache can be loaded again before its stored pages are handed over if and only if the commit stored none: the load is then exact, and otherwise it fails |
| TrieCounters.RunRegular | lib/DMMTrie.hpp:19-20 | the counters and links of every chain of every reachable state are right, whatever stored pages were read from files, as long as reloads of active delta pages keep the base count |
| TrieCounters.RunCounters | src/DMMTrie.cpp:718-734 | spelled out: count is the number of items and below 128, base count the number since the checkpoint and below 256, congruent modulo 128; versions sorted; frozen versions strictly increasing; links well founded |
| TrieCounters.RunLoadExactIff | src/LSVPS.cpp:260-324 | in every reachable state `LoadPage(pid, v)` is exactly the page as commit v left it, nullptr if v did not touch it, if and only if v is recoverable |
| TrieCounters.RunCovered | src/LSVPS.cpp:260-324 | if each checkpoint of a page has a delta page frozen at its version, every version of it is recoverable |
| TrieCounters.RunLoadIsShort | src/LSVPS.cpp:287-297 | a load of the newest version replays fewer than 256 items |
| TrieSizes.RunDeltasFit | src/DMMTrie.cpp:736-762 | every delta page of any run, active or frozen, fits its page; the overflow error is unreachable |
| TrieSizes.RunBasesFit | src/DMMTrie.cpp:887-910 | every checkpoint of a run fits its page, as long as reloads bring no longer leaf keys |
| TrieSizes.RunFits | src/DMMTrie.cpp:545-585 | in every run whose versions and log places are below a bound, and whose reloads are, all versions and places in stored, active and cached pages are below it; with a 32-byte hash function and no deletions all their hashes, but for those of the roots' own slots, have 32 bytes |
| TrieSteps.CommitMoves | src/DMMTrie.cpp:1179-1251 | a commit is, for each page id of its plan, one step of its chain from what it was when the commit began, and none for the others; what is cached afterwards was cached before or made by a step; the log holds the plan's records in order |
| Loads.WalkIsItems | src/LSVPS.cpp:287-297 | the walk along last page keys ends at the base of the chain and meets exactly the items on it, each once |
| Loads.ReplayDeltasIsDelta | src/LSVPS.cpp:311-315 | replaying the stacked delta pages one by one is one bounded replay of all their items |
| Loads.FirstAboveIs | src/DMMTrie.cpp:1458-1470 | the sentinel is the least frozen version above the one asked for |
| Loads.UpperboundIs | src/DMMTrie.cpp:1448-1470 | the version of the sentinel is 0 if nothing was frozen, the least frozen one above the one asked for, or else the current version |
| Loads.LoadRecoverable | src/LSVPS.cpp:260-324 | `LoadPage` answers a recoverable version exactly |
| Loads.LoadUnrecoverable | src/LSVPS.cpp:260-324 | it answers an unrecoverable version with a page of a later version |
| Loads.LoadExactIff | src/LSVPS.cpp:260-324 | so `LoadPage` is right about a version if and only if the version is recoverable, which is decided by the base version and the frozen versions |
| Loads.CoveredIsRecoverable | src/LSVPS.cpp:260-324 | if each checkpoint has a delta page frozen at its version, everything is recoverable |
| Loads.NewestLoadIsShort | src/LSVPS.cpp:287-297 | the newest load of one chain replays fewer than 256 items |
| Lost.CommitFreezes | src/DMMTrie.cpp:1198-1216 | a commit that checkpoints freezes a delta page at its version unless it is oversize and found the active page empty |
| Lost.CommitLosesIff | src/DMMTrie.cpp:961-995 | a version readable before a commit is unreadable after it if and only if it is not older than the last checkpoint, no delta page was frozen since, and the commit takes a checkpoint before it has frozen a delta page: at once over an empty one, or because the base count reaches 256 before the item count reaches 128; the base count may be stale |
| Lost.CommitCovered | src/DMMTrie.cpp:1198-1247 | a commit moves the base to its version without a delta page frozen before it exactly if counts and number of calls say so |
| Lost.SyncedUncoveredIff | src/DMMTrie.cpp:1198-1216 | with counts in step that is exactly a batch of 128 or more calls over an empty delta page |
| StaleCounts.StaleCountLosesVersion | src/LSVPS.cpp:655-678 | what a stale count does to one page id: whatever the two commits of one call each carry, a load of version 1 then answers a page stamped 1 with a child that only version 2 wrote |
| StaleRuns.StaleInRun | src/LSVPS.cpp:655-678 | a run that does it: one key committed at version 1, another at version 2, the root page given a pool object with a count of 252; then `Get` of the second key at version 1 answers its value instead of "" |
| Lost.CheckpointAnswers | src/LSVPS.cpp:266-283 | after it a load of any earlier version without a sentinel answers the checkpoint |
| Lost.HistoryLost | src/DMMTrie.cpp:1198-1216 | any two batches of 128 or more calls of one page: after the second a load of version 1 answers version 2 |
| LostRuns.LostByCommit | src/DMMTrie.cpp:1198-1216 | after a commit of 128 or more pieces of the root over an empty active delta page a read of the version before it answers the newest value of every key |
| LostRuns.LostInRun | src/DMMTrie.cpp:1088-1133 | a run that does it: 128 or more keys put and committed at version 1 and again at version 2; then `Get` at version 1 answers the values of version 2 |
| LostReads.LostGetIsNewest | src/DMMTrie.cpp:1088-1133 | asked for a version lost in that way, `Get` answers the newest value of the key |
| DmmTrie.DMMTrie.constructor | src/DMMTrie.cpp:1045-1059 | a new trie agrees with the empty history and stands at version 0 |
| DmmTrie.DMMTrie.Put | src/DMMTrie.cpp:1073-1086 | buffers the write and advances the version, or refuses an outdated version or an empty value and changes nothing |
| DmmTrie.DMMTrie.Delete | src/DMMTrie.cpp:1135-1142 | buffers the empty value unless the version is outdated |
| DmmTrie.DMMTrie.CalcRootHash | src/DMMTrie.cpp:1147-1293 | what was buffered becomes the next commit of the history, with which the whole trie still agrees, and the version reached stays as it is |
| DmmTrie.DMMTrie.CommitPlan | src/DMMTrie.cpp:1179-1251 | the main loop over the cache, the value log and the chains: every page of the plan is committed |
| DmmTrie.DMMTrie.CommitPageAt | src/DMMTrie.cpp:1179-1249 | one iteration changes the state as the transition of the state machine does, evicting only pages of other versions |
| DmmTrie.DMMTrie.MakeAllCalls | src/DMMTrie.cpp:1219-1239 | the loop over a page's pieces reads child hashes from the cache and writes values to the log |
| DmmTrie.DMMTrie.OpenPage | src/DMMTrie.cpp:1181-1192 | the page is read under its newest version, or made; nothing written by this commit is evicted |
| DmmTrie.DMMTrie.ClosePage | src/DMMTrie.cpp:1248 | the changed page is cached under the commit's version only, and its new chain recorded |
| DmmTrie.DMMTrie.GetPage | src/DMMTrie.cpp:1472-1513 | a page from the cache, or rebuilt and cached, with what that evicts |
| DmmTrie.DMMTrie.Follow | src/DMMTrie.cpp:1088-1125 | the descent of `Get` and `GetProof` ends right at an answerable version |
| DmmTrie.DMMTrie.Get | src/DMMTrie.cpp:1088-1133 | at an answerable version the last value written in commits up to it, at a version that no commit made ""; buffered writes and history are untouched |
| DmmTrie.DMMTrie.GetProof | src/DMMTrie.cpp:1299-1346 | at an answerable version a proof with the value of the key, "" for a deleted or unwritten one, and exactly the nodes on its path; that of a live key `Verify` accepts against the root hash; at a version that no commit made an empty proof |
| DmmTrie.DMMTrie.GetRootHash | src/DMMTrie.cpp:1295-1297 | the Merkle hash of the contents at the version; none at a version that no commit made |
| DmmTrie.DMMTrie.Verify | src/DMMTrie.cpp:1348-1364 | accepts exactly if folding the nodes over the hash of the value gives the root hash |
| DmmTrie.DMMTrie.NewestIsAnswerable | src/DMMTrie.cpp:1088-1133 | the newest committed version is always answerable |
| TrieLoop.LoopReady | src/DMMTrie.cpp:1179-1225 | in every state of the loop the next page can be opened, its child pages are cached, and its chain is linked |
| TrieLoop.NothingCachedYet | src/DMMTrie.cpp:1179-1192 | before a commit no page of its version is cached |
| TrieDescent.SpecifiedNext | src/DMMTrie.cpp:1095-1125 | from a page that is as specified, the descent goes on to the right child page at the right version, or stops rightly |
| TrieCache.VictimIsOlder | src/DMMTrie.cpp:1493-1513 | while a commit has accessed fewer pages than fit the cache, `PutPage` evicts none of them |
| Plans.BuildPlan | src/DMMTrie.cpp:1152-1161 | the iteration order of `updates`: every touched page id once, longer ones first, with exactly the pieces of the touched keys that follow it |
| Plans.EnterKey | src/DMMTrie.cpp:1154-1160 | entering one key adds its page ids and pieces, and nothing else |
| Plans.CollectUpdates | src/DMMTrie.cpp:1152-1161 | the collected map holds exactly the page ids and pieces of the buffered keys |
| Plans.LongestPid | src/DMMTrie.cpp:50-55 | the first page id of the order is a longest one |
| PageObjects.MutableDeltaPage.AddIndexNodeUpdate | src/DMMTrie.cpp:718-725 | one item is appended and both counters advance |
| PageObjects.MutableDeltaPage.AddLeafNodeUpdate | src/DMMTrie.cpp:727-734 | likewise for a leaf |
| PageObjects.MutableDeltaPage.ClearDeltaPage | src/DMMTrie.cpp:764-767 | the items go, the base count stays |
| PageObjects.LeafNode.UpdateNode | src/DMMTrie.cpp:152-170 | the leaf takes over the version, the place and the hash of the value, "" for an empty value, and logs itself |
| PageObjects.IndexNode.UpdateNode | src/DMMTrie.cpp:333-350 | the slot is set, the node rehashed over its sixteen slots, the bit set, and the change logged with the new hash |
| PageObjects.IndexNode.AddChild | src/DMMTrie.cpp:352-359 | the pointer and the bit are set and the slot starts over |
| PageObjects.IndexNode.SetDelta | src/DMMTrie.cpp:375-392 | an item sets version, hash and, for an index item, the slot |
| BasePages.BasePage.CopyFrom | src/DMMTrie.cpp:790-804 | the copy has node objects of its own and the same value |
| BasePages.BasePage.UpdatePage | src/DMMTrie.cpp:912-959 | the node objects change as the page value does, and the delta page logs the one or two items |
| BasePages.BasePage.UpdateDeltaItem | src/DMMTrie.cpp:998-1041 | the node objects change as replaying the item changes the page value |
| PageWriter.PageTables.FreezeDelta | src/DMMTrie.cpp:966-979 | the active delta page is stored under the version and emptied, and its version recorded |
| PageWriter.PageTables.StoreCheckpoint | src/DMMTrie.cpp:980-992 | a copy of the page is stored, the base version moves, the base count starts over |
| PageWriter.PageTables.SettleAt | src/DMMTrie.cpp:961-995 | freeze after 128 items, checkpoint after 256, else record the version |
| PageWriter.UpdateAndSettle | src/DMMTrie.cpp:912-995 | `UpdatePage` on objects is the step of the chain |
| PageWriter.CommitOversize | src/DMMTrie.cpp:1198-1247 | the oversize route on objects |
| PageWriter.CommitPageObjects | src/DMMTrie.cpp:1198-1247 | either route of `CalcRootHash` on page, delta page and table objects is the transition of the chain |
| PageLoader.FindVersionUpperbound | src/DMMTrie.cpp:1458-1470 | the search for the sentinel version |
| PageLoader.ReplayItems | src/LSVPS.cpp:486-492 | applies items up to the first that is too new |
| PageLoader.PushDeltas | src/LSVPS.cpp:287-297 | the stack holds the chain's delta pages, oldest on top, and the loop ends at a base page key that is stored |
| PageLoader.ReplayStack | src/LSVPS.cpp:311-315 | pops and replays them in that order |
| PageLoader.LoadFrom | src/LSVPS.cpp:260-324 | the loops together are `LoadPage` |
| ValueLog.VDLS.WriteValue | lib/VDLS.hpp:41-79 | appends the record where the last one ended if it fits the current file, and else, only then, at the start of the next; returns that place, a new one, from which the value reads back; every place returned earlier keeps reading back its own value |
| ValueLog.VDLS.Read | lib/VDLS.hpp:145-170 | at any place that `WriteValue` ever returned, the value written there up to its first newline |
| ValueLog.AppendLocates | lib/VDLS.hpp:41-79 | the place returned locates the record, and all earlier contents stay where they were |
| ValueLog.RunReadsBack | lib/VDLS.hpp:41-79 | over any run of writes each returned place keeps its own record, across file rollovers too, and no two extents overlap |
| ValueLog.RunFits | lib/VDLS.hpp:48-64 | no file outgrows its maximal size as long as no record does |
| ValueLog.RunFills | lib/VDLS.hpp:48-64 | over any run of writes each record lies where the one before it ends, or starts the next file because that one has no room for it |
| ValueLog.ParseInvertsRecord | lib/VDLS.hpp:160-169 | a record read back gives the value up to its first newline |
| ValueLog.ReadsBackIff | lib/VDLS.hpp:160-169 | so exactly the values without a newline read back unchanged |
| PageTable.LessIsTotal | lib/common.hpp:17-22 | the order of page keys is a strict total order |
| PageTable.LessTransitive | lib/common.hpp:17-22 | and transitive |
| PageTable.UpperBoundIs | src/LSVPS.cpp:383-484 | the binary search finds the first lookup entry beyond the key |
| PageTable.LookupRight | src/LSVPS.cpp:383-484 | the lookup block sends a key that the file holds to the block that holds it |
| PageTable.ReadFromFileExact | src/LSVPS.cpp:383-484 | lookup block, index block, page: the search of a file agrees with a scan of its entries |
| PageTable.ChunkIs | src/LSVPS.cpp:515-531 | the blocks of 126 concatenate to the mappings, all but the last full |
| PageTable.MakeFileHolds | src/LSVPS.cpp:512-554 | the flushed file holds exactly the buffer's entries |
| PageTable.FilesExact | src/LSVPS.cpp:357-381 | the first file whose range includes a key is the only one that can hold it |
| PageTable.PageLookupExact | src/LSVPS.cpp:357-381 | buffer, files and blocks together agree with a scan of everything ever stored; version 0 is never found |
| PageTable.FlushKeeps | src/LSVPS.cpp:512-560 | a flush moves pages and stores the same things |
| PageTable.StoreAllKeeps | src/LSVPS.cpp:326-339 | a commit's pages are appended in order, flushes on the way included |
| PageTable.StoreAllFills | src/LSVPS.cpp:326-339 | storing makes one file for each full buffer, of that many pages, and keeps the rest in the buffer |
| PageTable.ApplyKeeps | src/LSVPS.cpp:326-381 | after any commit or flush a lookup finds the one page stored under its key |
| MemIndexTable.Table.StorePage | src/LSVPS.cpp:326-339 | the buffer grows by the page, and is flushed when it is full |
| MemIndexTable.Table.FlushBuffer | src/LSVPS.cpp:512-560 | the buffer becomes a file with index blocks and a lookup block |
| MemIndexTable.Table.BuildBlocks | src/LSVPS.cpp:515-531 | the loop fills blocks of 126 mappings with the pages' offsets |
| MemIndexTable.Table.WriteLookup | src/LSVPS.cpp:533-541 | one lookup entry per block: its first key and its offset behind the pages |
| MemIndexTable.Table.Lookup | src/LSVPS.cpp:357-381 | the loops of `pageLookup` answer what a scan of everything stored does |
| MemIndexTable.Table.ReadFile | src/LSVPS.cpp:383-484 | the three steps through a file |
| TrieGrowth.CommitGrows | src/DMMTrie.cpp:1147-1260 | a commit adds, for all page ids at once, stored pages of its version only, and all others are older |
| Storage.NewPages | src/DMMTrie.cpp:1253-1259 | the pages a commit stored, and nothing else, in page key order |
| Storage.CommitStores | src/DMMTrie.cpp:1253-1259 | handing them to the page table, which may flush at any of them, leaves the table holding exactly what was ever written |
| Storage.TableFinds | src/LSVPS.cpp:357-381 | such a table answers each lookup with the page written under the key, or none |
| Storage.LookupDuringCommit | src/DMMTrie.cpp:1253-1260 | while a commit runs, with its pages still in `page_cache_`, lookups for the page it comes to next are right |
| Storage.SeenIs | src/LSVPS.cpp:383-484 | a chain whose stored pages are looked up, those in files parsed from the bytes printed for them, is a faithful copy of the chain |
| TriePool.HandedKeeps | src/LSVPS.cpp:655-678 | what the pool hands out for a page id was last stored under it, up to a round trip and a base count below 256 |
| TriePool.PlanCommutes | src/DMMTrie.cpp:1179-1251 | iterations have nothing to do with the active delta pages of page ids that come later in the plan |
| PoolCommits.PoolCommitIs | src/DMMTrie.cpp:1179-1251 | a commit that takes each active delta page from the pool and stores it there again, evictions at any point, is a commit of the trie after a reload of faithful copies; what is stored fits, and the pool mirrors the trie afterwards |
| StoreRuns.RunIsSound | src/LSVPS.cpp:260-324 | every run of the store, with page reads, commits and flushes through table, pool, files and bytes, is a run of the trie with reloads; the table holds exactly what was written and the pool mirrors the active delta pages |
| StoreRuns.LookupsAreRight | src/LSVPS.cpp:357-381 | every lookup of every such run finds a page exactly if the trie has stored one under the key, and finds it as it was written |
| StoreRuns.FilesAreReadable | src/LSVPS.cpp:512-606 | every index block and lookup block of every file of every such run fits and reads back unchanged |
| StoreRuns.GetThroughFiles | src/LSVPS.cpp:260-324 | after any such run, with every page looked up in the table and parsed from its bytes, `Get` is right about every version that the store can rebuild |
| StoreRuns.GetNewestThroughFiles | src/DMMTrie.cpp:1088-1133 | and so about the newest version always |
| StoreRuns.RootHashThroughFiles | src/DMMTrie.cpp:1147-1251 | in every such run without deletions, with a hash of 32 bytes, in which each commit has a key below every child whose slot the page it opens has lost in a file, the newest root hash, read through table, files and bytes, is the Merkle hash of all that was written |
| StoreRuns.OldRootHashThroughFiles | src/DMMTrie.cpp:1295-1297 | and so is that of every older version whose root page can be rebuilt |
| ReadBacks.FitSurvives | src/DMMTrie.cpp:806-846 | a stored page whose numbers fit is written, and read back as a copy that is faithful up to hashes and root slots, or with 32-byte hashes up to root slots alone, and fits again |
| ReadBacks.FileGivesBack | src/LSVPS.cpp:383-484 | a page written to a file is read back, as the type its key names, as its round trip says |
| Copies.CopyKeeps | src/LSVPS.cpp:925-975 | a chain of faithful copies with a reloaded active page keeps the invariant, also with a stale base count |
| TrieRuns.ReloadKeeps | src/LSVPS.cpp:925-975 | the same for the whole trie |
| LruCache.Lru.Get | src/DMMTrie.cpp:1472-1491 | a hit moves the entry to the front; the page found is the one under the key; list and hash map stay in bijection |
| LruCache.Lru.PutPage | src/DMMTrie.cpp:1493-1513 | the entry is put in front and the last one dropped beyond the capacity |
| LruCache.Lru.UpdatePageKey | src/DMMTrie.cpp:1515-1529 | the entry moves to the front under its new key, and nothing stays under the old one |
| LruCache.IndexedFinds | src/DMMTrie.cpp:1472-1480 | a key is in the hash map exactly if it is in the list, and leads to its page |
| PageCache.PutMaps | src/DMMTrie.cpp:1493-1513 | as a map, `PutPage` binds the key and unbinds at most the least recent entry |
| PageCache.RekeyMaps | src/DMMTrie.cpp:1515-1529 | as a map, re-keying moves one binding |
| PageCache.TouchMaps | src/DMMTrie.cpp:1472-1480 | as a map, a hit changes nothing |
| PageCache.LeastRecentIsLast | src/DMMTrie.cpp:1472-1526 | whatever was done to the cache, its entries stand in the order of their last use, so that a full cache gives up the one not used for longest |
| DeltaPool.GetKeeps | src/LSVPS.cpp:655-678 | `Get` always finds a free place, keeps the partition of places and the disjointness of disk pages, and yields what was last stored, or a fresh page |
| DeltaPool.EvictKeeps | src/LSVPS.cpp:736-748 | evicting any page keeps the invariant |
| DeltaPool.FillKeeps | src/LSVPS.cpp:655-678 | filling the first free place, from disk or afresh, keeps it |
| DeltaPool.StoreKeeps | src/LSVPS.cpp:638-653 | storing a changed page records it and moves nothing else |
| DeltaPool.RunKeeps | src/LSVPS.cpp:638-748 | the invariant over any interleaving |
| DeltaPool.GetAfterRun | src/LSVPS.cpp:655-678 | after any interleaving of reads, stores and evictions `Get` yields the items, last key and count last stored under the page id |
| DeltaPool.StaysWhole | src/LSVPS.cpp:655-678 | a page that has not been evicted since it was stored comes back as it was stored, its base count included |
| ActiveDeltaPages.ActiveDeltaPageCache.constructor | src/LSVPS.cpp:608-629 | all places are free |
| ActiveDeltaPages.ActiveDeltaPageCache.EvictIfNeeded | src/LSVPS.cpp:736-748 | a full cache gives up one page, whichever the hash map lists first |
| ActiveDeltaPages.ActiveDeltaPageCache.Get | src/LSVPS.cpp:655-678 | the object returned holds what was last stored under the page id |
| ActiveDeltaPages.ActiveDeltaPageCache.ReadFromDisk | src/LSVPS.cpp:925-975 | the page last stored under the page id, with its items after a round trip, its last key and its count, and a base count of 0 |
| ActiveDeltaPages.ActiveDeltaPageCache.WriteToDisk | src/LSVPS.cpp:693-734 | overwrites the page id's own part of the file, or appends |
| ActiveDeltaPages.ActiveDeltaPageCache.Store | src/LSVPS.cpp:638-653 | writes the cached page, or fails exactly on overflow |
| ActiveDeltaPages.ActiveDeltaPageCache.ChangeAndStore | src/LSVPS.cpp:638-653 | a page changed in place and stored is what is last stored |
| Fields.IntSurvivesIff | src/DMMTrie.cpp:545-585 | a field of w bytes carries exactly the integers below 256 to the w |
| Fields.BitmapInverts | src/DMMTrie.cpp:248-284 | a set of nibbles fits the bitmap and is read off it again |
| DeltaCodec.ParseItemInverts | src/DMMTrie.cpp:515-541 | an item printed is parsed back, the rest of the bytes untouched |
| DeltaCodec.ItemBackIff | src/DMMTrie.cpp:545-585 | it comes back unchanged exactly if its hashes have 32 bytes, otherwise in all but the hashes |
| DeltaCodec.DeltaRoundTrip | src/DMMTrie.cpp:441-475 | a delta page that fits is read back with page id, last page key, count and items in order; only the base count is not carried |
| DeltaCodec.FullDeltaRoundTrip | src/DMMTrie.cpp:736-762 | with 32-byte hashes nothing but the base count is lost |
| DeltaCodec.DeltaAlwaysFits | src/DMMTrie.cpp:736-762 | 128 items always fit, at any page id of up to 2624 characters |
| Sizes.CommitSized | src/DMMTrie.cpp:961-979 | no commit makes a delta page of more than 128 items, whatever the base count |
| Sizes.CommitFits | src/DMMTrie.cpp:912-995 | a commit of calls whose numbers fit, to a page and a chain that fit, leaves them so |
| Sizes.LoadFits | src/LSVPS.cpp:260-324 | what `LoadPage` rebuilds from what fits fits as well |
| BaseCodec.PageRoundTrip | src/DMMTrie.cpp:806-846 | a base page that fits is read back with page id, version, root hash, bitmap and whole second level; only the root slots start over |
| BaseCodec.RecoverRestores | src/DMMTrie.cpp:286-331 | a page whose root slots equal its children's versions and hashes is restored exactly by copying them back |
| BaseCodec.RecoveredCopy | src/DMMTrie.cpp:286-331 | and then is a faithful copy in full |
| BaseCodec.BaseCopy | src/DMMTrie.cpp:806-846 | without that it is one up to hashes and root slots |
| BaseCodec.PageAlwaysFits | src/DMMTrie.cpp:887-910 | a full page of 16 by 16 slots or of sixteen leaves stays within 12288 bytes at page ids of up to 610 characters |
| BaseCodec.UpdateKeepsShort | src/DMMTrie.cpp:912-959 | `UpdatePage` keeps leaf keys short enough for that |
| BaseCodec.ReplayKeepsShort | src/DMMTrie.cpp:1010-1016 | so does replay, which leaves them empty |
| BlockCodec.IndexBlockRoundTrip | src/LSVPS.cpp:32-147 | an index block is written if and only if its entries fit, takes one block, and is read back unchanged |
| BlockCodec.LookupBlockRoundTrip | src/LSVPS.cpp:149-252 | likewise a lookup block |
| BlockCodec.ShortPidsFit | lib/LSVPS.hpp:21-23 | 126 entries fit with page ids of at most 64 characters |
| BlockCodec.FullBlockFitsIff | lib/LSVPS.hpp:21-23 | and 64 is the longest length with which 126 entries fit |
| Layouts.RecordLayout | lib/VDLS.hpp:44-78 | a value record spells its version in decimal and its key in hexadecimal, a comma behind each, then the value and a newline |
| Layouts.IntByte | src/DMMTrie.cpp:739-753 | integers lie little-endian: byte k carries the bits from 8k on |
| Layouts.KeyLayout | lib/common.hpp:53-68 | version at byte 0, trie id at 8, type at 16, length of the page id at 17, page id at 25, in files and in page buffers alike |
| Layouts.ItemLayout | src/DMMTrie.cpp:545-585 | each field of a delta item at its offset: place 0, kind 1, version 2, hash 10, then file id, offset and size at 42, 50, 58, or nibble and child hash at 42 and 43 |
| Layouts.DeltaLayout | src/DMMTrie.cpp:736-762 | a delta page is its last page key, the count, and each item where the items before it end |
| Layouts.NodeLayout | src/DMMTrie.cpp:91-122 | each field of a leaf and of an index node at its offset |
| Layouts.SlotLayout | src/DMMTrie.cpp:263-273 | the slots of an index node lie in the order of their nibbles, only those that exist |
| Layouts.PageLayout | src/DMMTrie.cpp:887-910 | a base page is its key with the root's version, the root, and the children in the order of their nibbles |
| Layouts.BlockLayout | src/LSVPS.cpp:32-66 | a block is the count in four bytes and each entry where the entries before it end |
| FileCodec.LookupCount | lib/LSVPS.hpp:91-93 | 126 lookup entries are enough if and only if at most 126 squared pages are flushed |
| FileCodec.FileSurvives | src/LSVPS.cpp:512-606 | all blocks of a flushed file fit and read back |
| RootSlots.UpdatesHashIff | src/DMMTrie.cpp:1219-1239 | calls on a page that has lost root slots compute the right root hash if and only if they reach every child whose slot was lost |
| RootSlots.ReplayReread | src/LSVPS.cpp:311-315 | replaying delta pages on a page with lost slots gives the right page up to lost slots, and slot j is intact afterwards if and only if it was before or some replayed root item sets it |
| RootSlots.LoadReread | src/LSVPS.cpp:260-324 | a load from stored pages that were read back finds a page exactly if a load from the originals does, and answers the same page up to the slots that neither survived nor were set again |
| Reread.ProofNodeIff | src/DMMTrie.cpp:396-402 | a proof node taken from a page with lost slots hashes to the root hash if and only if every sibling slot is intact |
| Reread.LoadedSlotIff | src/LSVPS.cpp:260-324 | after a load from files a slot is lost if and only if its child was in the checkpoint and no replayed root item sets it |
| Reread.LoadedProofIff | src/DMMTrie.cpp:396-402 | so the proof node of child i, on a page loaded from files, is right if and only if replay sets the slot of every other child of the checkpoint |
| Reread.LoadedUpdatesIff | src/DMMTrie.cpp:1219-1239 | and the root hash that a commit computes on it is right if and only if every child of the checkpoint has its slot set by replay or is reached by a call |
| Reread.RereadProofIff | src/DMMTrie.cpp:396-402 | with nothing to replay: the proof node is right if and only if the page has one child only |
| Reread.RereadUpdatesIff | src/DMMTrie.cpp:1219-1239 | with nothing to replay: the root hash is right if and only if the commit reaches every child |
| Reread.RecoveredProof | src/DMMTrie.cpp:352-356 | with the slots copied back page and proof node are as before |
| Reread.RereadProofFails | src/DMMTrie.cpp:396-402 | a page of two leaves, read back, whose proof node does not hash to its root hash |
| Reread.RereadUpdatesFail | src/DMMTrie.cpp:323-327 | and on which the root hash of a commit is wrong unless it writes both leaves |
| Types.GetIndexInvertsHexChar | src/DMMTrie.cpp:58-68 | on keys of one letter case reading nibbles loses nothing |

## Left out

- Files, mmap, msync, directories, streams, ownership and leaks: files are sequences of bytes or pages, and a failed read finds nothing.
- SHA-1 and OpenSSL: the hash is a function parameter, injective where a statement says so.
- Hash width: the formats have 32-byte fields; a shorter hash is taken to be followed by zeros, where the source reads past the string.
- Integer widths: counters, versions, sizes and offsets are unbounded; the byte formats state which numbers fit their fields (`DeltaFits`, `PageFits`, `LineFits`).
- RecursiveVerify and the Verify overload on it (src/DMMTrie.cpp:1366-1411): meaningful only if every page was touched in the version asked for and all nibbles are below 10.
- FlushToDisk, prepareForBatchWrite, writeIndexBlock, readIndexBlock and restarting: offsets are cleared after such a flush, and the version tables are not persisted.
- Revert, Commit, PageQuery, GetDeltaPage, the V1 log functions and the stream variants of DeltaPage: stubs, aliases or unused.
- src/Letus.cpp, gowrapper, workload, exps: wrapping and benchmarks.
- tid: always 0, left out of keys and comparisons.
- The bitmap of a node proof: `Verify` does not look at it.
- Keys of different lengths, and page ids in two letter cases: all keys have one length L and one letter case; a key that is a prefix of another would make a page both leaf and index.
- Versions: committed versions are at least 1 and strictly increasing, one commit each; version 0 is never found by a page lookup.
- Order among equally long page ids and among the pieces of a page: any order is allowed, the source's being one of them. The proofs hold for all.
- TrieCounters.RunRegular: about runs whose reloads of active delta pages keep the base count, which the pool's file does not. Reloads of stored pages are not restricted. What holds with stale counts is in `TrieTheorems`, `Historical`, `Lost` and `StoreRuns`.
- TrieCounters.RunCounters: as TrieCounters.RunRegular.
- TrieCounters.RunLoadIsShort: as TrieCounters.RunRegular.
- TrieCounters.RunCovered: as TrieCounters.RunRegular; with stale counts `Historical.RunIsCovered` applies.
- TrieCounters.RunLoadExactIff: as TrieCounters.RunRegular, since with stale counts a load of a lost version may be right by accident; and current_version_ must not lie behind the last commit, because the search for the sentinel falls back to it; the source only prints a message when it does.
- TrieSizes.RunBasesFit: says nothing of runs whose reloads bring leaf keys longer than the page id and two digits, which reading a page from its bytes never does (ReadBacks.FitSurvives).
- StoreRuns.RunIsSound: about keys of at most 64 nibbles, because index blocks are made for page ids of that length, and about versions and log places below 2 to the 64.
- StoreRuns.LookupsAreRight: as StoreRuns.RunIsSound.
- StoreRuns.GetThroughFiles: as StoreRuns.RunIsSound.
- StoreRuns.GetNewestThroughFiles: as StoreRuns.RunIsSound.
- StoreRuns.RootHashThroughFiles: the condition on commits is sufficient, for each commit of the run; the exact one, for one page, is `Reread.LoadedUpdatesIff`. For proofs there is only the exact condition for one page, `Reread.LoadedProofIff`. Deleted keys are left out of such runs because their hash "" is read back as 32 bytes.
- StoreRuns.OldRootHashThroughFiles: as StoreRuns.RootHashThroughFiles.
- DmmTrie.DMMTrie.CalcRootHash: requires records of at most 64 MB, a version newer than all committed ones, and a cache that holds more pages than the commit accesses. A child page evicted before its parent reads it would be loaded again in the source, which fails if the commit has just frozen or checkpointed it, because those pages still wait in page_cache_ (`Evolution.LoadDuringCommit`).
- DmmTrie.DMMTrie.CommitPageAt: the cache keeps page values; each commit works on a `BasePage` object made from the value, so that a cached page object changed in place under its old key is not modelled as such.
- DmmTrie.DMMTrie.constructor: the starting version is 0, and the chains of the page ids stand for page_versions_, deltapage_versions_, page_cache_ and the page store, whose own table `Storage` relates to them.
- PageLoader.PushDeltas: as PageLoader.LoadFrom.
- PageLoader.LoadFrom: requires stored pages to be linked, as they are in every reachable state; on links that go in circles the source would not stop.
- BasePages.BasePage.UpdateDeltaItem: requires a location of at most 16, where the source throws, and no set bit without a node, which the source would dereference.
- LruCache.Lru.UpdatePageKey: requires that the new key is not cached under another entry, which holds for a version that is being committed.
- LostReads.LostGetIsNewest: about a root page that was lost and not yet cached; a lost page further down changes only the answers for keys below it.
- ValueLog.VDLS.WriteValue: requires the record to fit one file; the source would write past the mapping.
