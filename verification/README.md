# summ: the metadata layer, verified

summ is a container registry whose metadata is a hand-built index over one ordered byte-key
store. Every registry operation is one atomic `WriteBatch`; background passes (the repository
sweeper, purge) delete things while clients push. This project models that layer in Dafny and
proves what its design relies on: cross-index invariants over every run, the purge protocol's
safety and convergence, the two lock protocols, the key codec and both storage engines, the name
interner, resumable uploads and pull counters.

`dafny verify dfyconfig.toml` checks everything.

## How the model is layered

* `Bytes`, `Paging`, `MetaStore` - byte order, cursor paging over any strict order (including
  walks over a range others edit), batches, and the RocksDB and redb engines over them.
* `Keys`, `KeyCodec`, `PrefixExtractor` - every stored key by logical content, its encoding, the
  scan prefixes, decoders and cursors, and RocksDB's prefix groups.
* `Store` - the registry's own view, a map from typed keys to decoded records, proved to be what
  either byte engine holds. `Interner` - names, ids and the bounded caches.
* `Registry` - each operation as the batch it commits; `Staging`, `Planner`, `RepoDrop`, `Purge` -
  the loops, drains and page walks that build and apply those batches, proved to come to them.
* `Invariants`, `IndexSteps`, `Retractions`, `Upkeep`, `Requests` - what every call keeps true;
  `Guards` - when each call may go ahead, in terms of stored keys; `Answers`, `StepAnswers` - what each
  call and each step of a pass or a sweep then does to every key; `Outcomes` - what a caller is owed,
  and isolation between repositories.
* `System`, `Runs`, `RunAnswers`, `TagHistory`, `Convergence` - one state machine over all of it and the
  theorems about its runs; `ClockSkew`, `WipedHolder`, `EpochClock` - whole runs that show where a promise stops.
* `RepoLocks`, `LockedPurge`, `BlobLocks` - plan and apply, or bytes and metadata, as separate steps under locks.
  `Stragglers`, `LatePush` - a push whose plan and apply straddle its repository's drop.
  `PushAgainstPurge` - the same of a push and purge. `SplitScan`, `MarkingGap`, `RacedMark` - purge's
  marking with its read and its write apart. `NameRaces` - the interner's calls taken apart.
* `Discovery`, `HistoryPages`, `Uploads`, `Counters`, `CounterWindow` - bounded search, history
  paging, resumable uploads, pull counters.

A specification clause of the form `var x := P(...); x` is just `P(...)`; binding it keeps the
verifier from taking the predicate apart where it is only carried along. Maps are built by update,
union and removal only: the verifier's encoding of a map comprehension also fixes its values outside
its own domain, which two comprehensions with equal contents need not agree on.

## Standing assumptions

Reference validation is on (the default). A digest determines its manifest's layers, children and
subject, and the tag grammar determines the subject a legacy artifact tag names; both are
parameters (`Config`). Record codecs round-trip. Purge passes do not overlap. In `System` each
registry call is one atomic step; `RepoLocks` and `BlobLocks` take the calls apart. No clock is
assumed to be monotone or agreed unless a theorem says so.

## Findings

Where a promise of the source's prose turned out not to hold as written, the code is modelled as
it is, the failing case is a lemma, and the exact condition is proved.

* **Purge safety needs its clocks.** A pass reads its clock once. A commit that lands between its
  membership walk and its blob walk is stamped later than the mark the pass then places, and the
  next pass can collect the blob while a repository still holds it (`ClockSkew.SafetyNeedsTheClock`:
  ten seconds of grace, a commit five seconds in). `Runs.PurgeSafetyAtTheMark` is exact: who loses a
  held blob is who held it on a later stamp when the mark was placed and has not been wiped since, so
  with no wipe in between nobody does if and only if that one marking step was timely.
* **A repository wipe does not restart a blob's clock.** Every other way a membership ends clears the
  blob's mark; finishing a repository's sweep drops the memberships unseen and leaves it. A blob can
  therefore be collected moments after a repository that held it all along is wiped
  (`WipedHolder.WipesDoNotRestartTheClock`). `Runs.ContinuousQuiet` states that this is the only
  exception: from mark to collection a membership changes if and only if its own repository is wiped.
* **A clock within one grace period of the epoch** has its cutoff floored there, so a mark stamped
  zero is ripe at once (`EpochClock.EpochCutsTheGraceShort`); `Runs.ContinuousQuiet` states the exception.
* **Unlocked marking costs more than a re-mount.** The source argues that a mark which races a
  retraction only ever costs a blob that no manifest referenced. With the scan's read and write apart a
  mark can land on a blob a push has just referenced (`RacedMark.MarkOnReferencedBlob`), outlive the
  reference, and collect the blob the moment its manifest is deleted, out of a repository that has held
  it since before the cutoff (`RacedMark.MarkOutlivesItsReason`). Both conditions are exact, in every run
  and for each blob. No marked blob is ever referenced if and only if no mark of it lands on a reference
  (`MarkingGap.MarkedIsUnreferencedIff`), and one that does was overtaken, between its page's read and
  its write, by a push of the blob (`MarkingGap.MarkMeetsReference`). A collection takes a blob from an
  old holder if and only if the same pass's membership walk had spared that holder, for a reference, with
  the mark already standing, and it was not wiped since (`MarkingGap.OldHolderLosesIff`). A blob no push
  races has all that one-step marking gives (`MarkingGap.UnracedBlobIsSafe`), and where nothing races so
  has the whole store (`MarkingGap.InvariantsSurviveTheGap`). Race or no race, a collected blob has no
  reference and the quiet interval counts from the landing of its mark (`SplitScan.QuietSurvivesTheGap`).
* **A straggling push undoes the drop.** The design lets a push planned before a drop be applied after
  it, as unreachable garbage. Applied after the sweep finished, it leaves its manifest and its layers'
  edges under an id nothing will look at again, so those layers are never reclaimed
  (`Stragglers.StragglerPinsItsLayers`). Applied while the sweep is on record, the drop still completes,
  unless the running sweep had already gone by the manifest and is not interrupted: then exactly those
  edges stay (`Stragglers.LateDropIsComplete`). `LatePush.LatePushHappens` is such a run. Retiring an
  empty name releases its id with no sweep at all, and a push straddling that is a straggler too
  (`LatePush.RetirementStraggles`); the server shuts this second window by retiring under the repository
  lock a push holds from plan to apply, but drops without it. In `System`, where a push is one step, the
  drop is complete.
* **A slow lookup can bring a dead id back.** A lookup that fills the cache after a drop has already
  forgotten the mapping leaves the name leading to the id being swept
  (`NameRaces.SlowLookupPoisonsTheCache`); exactly then, by `NameRaces.StaleIffForgotten`. The stored
  mapping itself survives every interleaving.
* **History can disagree with a tag.** The server reads its clock before it waits for the repository
  lock, so a push may land with an older stamp than its predecessor (`TagHistory.LateStampDisagrees`, a
  whole run). `PushAgreesIff`, `UntagAgreesIff` and `RemoveAgreesIff` give each mutation's exact condition.
* **An unbounded prefix delete on RocksDB** is expanded against the live database, so it misses keys
  the same batch put (`MetaStore.EnginesCanDisagree`); `EnginesAgree` is the exact condition. No
  registry prefix is unbounded.
* **The `before` cursor at the epoch** returns events stamped at the epoch itself
  (`KeyCodec.BeforeSplitsHistory`).
* **Resolving the reserved id** reads the allocation counter as a name and caches it, whenever its four
  bytes happen to be UTF-8 (`Interner.RepoInterner.Resolve`), as they are after the first name is
  interned (`Interner.CounterReadsAsText`).
* **`set_tag` is not safe against the unlocked repository wipe** (`RepoLocks.RetagAfterWipeDangles`);
  `RepointKeepsIndexIff` is exact. The server never calls it; it repoints by pushing, which is safe.

## Model

| member | source | states |
|---|---|---|
| MetaStore.PrefixSuccessor | summ-meta/src/rocks_engine.rs:115-125 | the carry loop computes the prefix successor |
| MetaStore.PrefixIsRange | summ-meta/src/rocks_engine.rs:109-125 | for every byte string, the keys starting with `p` are exactly `[p, successor(p))`, unbounded above when there is no successor |
| MetaStore.UnboundedPrefix | summ-meta/src/rocks_engine.rs:109-125 | a prefix has no successor exactly when it is empty or all 0xff |
| MetaStore.RedbEngine.Apply | summ-meta/src/redb_engine.rs:137-164 | ops applied in order to a plain map |
| MetaStore.RedbEngine.Scan | summ-meta/src/redb_engine.rs:47-106 | a page of the prefix range after the cursor with the stored value beside each key, and a cursor iff a further key exists; nothing for a limit of zero |
| MetaStore.RedbEngine.ExistsPrefix | summ-meta/src/redb_engine.rs:125-135 | one seek answers whether any key has the prefix |
| MetaStore.RocksEngine.Apply | summ-meta/src/rocks_engine.rs:341-370 | the translated native batch, range deletes and expansion of unbounded prefixes included, has the stated effect |
| MetaStore.RocksEngine.Scan | summ-meta/src/rocks_engine.rs:230-307 | the inclusive seek, upper bound and skip-the-cursor step serve the same keys and values as redb |
| MetaStore.EnginesAgree | summ-meta/src/rocks_engine.rs:341-370 | the engines apply a batch alike iff it does not put an absent key and then delete it by a prefix with no successor |
| MetaStore.BoundedBatchesAgree | summ-meta/src/rocks_engine.rs:341-370 | they agree on every batch whose prefix deletes all have a successor |
| MetaStore.EnginesCanDisagree | summ-meta/src/rocks_engine.rs:350-364 | a batch on which they differ |
| MetaStore.ScansAgree | summ-meta/src/engine.rs:98-131 | two pages that meet the scan contract over one store are the same page, whatever the cursor |
| MetaStore.ScanPagesAreExact | summ-meta/src/engine.rs:81-106 | following cursors over a fixed store serves the prefix range once, sorted |
| Paging.WalkUnderEdits | summ-meta/src/engine.rs:81-106 | when others edit the range between pages, no key is served twice, every served key was there, and a key there throughout is served |
| Paging.PageIsUnique | summ-meta/src/engine.rs:81-106 | the scan contract determines the page |
| Paging.WalkRange | summ-meta/src/redb_engine.rs:47-83 | the redb walk serves the reachable keys, reading one past the limit |
| Paging.WalkIterator | summ-meta/src/rocks_engine.rs:247-286 | so does the RocksDB walk, stepping over the cursor key itself |
| Keys.PrefixesAreExact | summ-core/src/keys.rs:62-617 | a stored key starts with a scan prefix iff it is one of the logical keys that prefix is for, over all ranges, both digest sizes and NUL-free tags |
| Keys.EncodeIsInjective | summ-core/src/keys.rs:62-617 | all ranges are disjoint and every builder is injective |
| KeyCodec.RepoDigestOrder | summ-core/src/keys.rs:68-93 | byte order of `M`, `Z`, `P` keys is (repository, digest) order |
| KeyCodec.TagListOrder | summ-core/src/keys.rs:105-113 | tags sort by name within a repository |
| KeyCodec.HistoryOrder | summ-core/src/keys.rs:322-348 | a tag's history sorts newest first, ties by digest |
| KeyCodec.ManifestHistoryOrder | summ-core/src/keys.rs:401-411 | a manifest's history sorts newest first, ties by tag |
| KeyCodec.CounterOrder | summ-core/src/keys.rs:467-521 | a subject's counters sort by day, then shard, in all three scopes |
| KeyCodec.BeforeSplitsHistory | summ-core/src/keys.rs:372-379 | the `before` cursor splits strictly earlier events from the rest iff the instant is at least 1 ms or the event is later than the epoch |
| KeyCodec.BeforeSplitsManifestHistory | summ-core/src/keys.rs:426-433 | the same for manifest history |
| KeyCodec.FromDayIncludesDay | summ-core/src/keys.rs:536-541 | resuming after `prefix day` yields exactly the keys of that day and later |
| KeyCodec.DigestSuffixInverts | summ-registry/src/suffix.rs:21-23 | the digest decoder inverts the builders |
| KeyCodec.EdgeSuffixesInvert | summ-registry/src/suffix.rs:21-31 | both ends of an edge decode, a 64-byte first digest included |
| KeyCodec.RefTargetInverts | summ-registry/src/suffix.rs:35-41 | a reference key decodes to its repository and manifest |
| KeyCodec.RepoInverts | summ-registry/src/purge.rs:370-376 | the repository id decodes out of a membership key |
| KeyCodec.HistorySuffixInverts | summ-core/src/keys.rs:385-390 | a history key decodes to its instant and digest |
| KeyCodec.ManifestHistorySuffixInverts | summ-core/src/keys.rs:393-397 | a manifest history key decodes to its instant and tag iff the tag is text |
| KeyCodec.CounterSuffixInverts | summ-core/src/keys.rs:544-553 | a counter key decodes to its day and shard |
| KeyCodec.TagSuffixInverts | summ-core/src/keys.rs:144-150 | over every stored key, the tag decoder answers for `T` keys only, with their tag |
| KeyCodec.ManifestTagSuffixInverts | summ-core/src/keys.rs:138-142 | a `G` key decodes to its tag at either digest size |
| KeyCodec.RepoNameInverts | summ-core/src/keys.rs:608-613 | over every stored key, the name decoder answers for `n` keys only, with their name |
| KeyCodec.DeadRepoInverts | summ-core/src/keys.rs:579-584 | over every stored key, the sweep decoder answers for `D` keys only, with their id |
| KeyCodec.EncodedLengthAgrees | summ-core/src/digest.rs:32-38 | the algorithm byte promises the length the encoder wrote |
| PrefixExtractor.TransformIsIdempotent | summ-meta/src/rocks_engine.rs:45-100 | transforming a prefix changes nothing, for every byte key |
| PrefixExtractor.ExtensionsShareTheGroup | summ-meta/src/rocks_engine.rs:45-100 | any extension of an in-domain key is in its group |
| PrefixExtractor.GroupsAreContiguous | summ-meta/src/rocks_engine.rs:45-100 | a key between two members of a group in byte order is in the group |
| PrefixExtractor.SeeksStayInGroup | summ-meta/src/rocks_engine.rs:45-100 | every stored key under an in-domain scan prefix shares that prefix's group |
| PrefixExtractor.ReferenceProbes | summ-meta/src/rocks_engine.rs:45-50 | the per-repository reference probe extracts to the blob's group |
| PrefixExtractor.KeyGroups | summ-meta/src/rocks_engine.rs:45-100 | every stored key's group is its repository's range or the one digest a lookup is for; the other keys have none |
| Store.BatchesRefine | summ-meta/src/engine.rs:20-79 | a registry batch on typed keys, on redb and on RocksDB reach the same store under any record codec |
| Store.PagesRefine | summ-meta/src/engine.rs:81-106 | a typed page is the byte engine's page of the same prefix |
| Interner.Lru.Put | summ-meta/src/interner.rs:149-152 | the entry goes to the front; at capacity a new one displaces exactly the least recently used |
| Interner.RepoInterner.Lookup | summ-meta/src/interner.rs:55-66 | the id the store records, cached or not |
| Interner.RepoInterner.Resolve | summ-meta/src/interner.rs:69-80 | the name the store records; the caches stay in agreement iff the id is not the reserved one, or no counter is stored, or its bytes are not UTF-8, which is an error |
| Interner.RepoInterner.InternName | summ-meta/src/interner.rs:86-115 | resolves or allocates, refuses only when ids are exhausted, and a new id was never issued before |
| Interner.RepoInterner.AllocateId | summ-meta/src/interner.rs:96-111 | one batch writes both directions and the counter and keeps the bijection and the caches |
| Interner.RepoInterner.Release | summ-registry/src/delete.rs:264-277 | the mapping goes, both directions of it and nothing else; cache agreement holds |
| Interner.RepoInterner.Evict | summ-meta/src/interner.rs:29-50 | eviction at any time changes no answer |
| Bytes.Utf8Iff | summ-meta/src/interner.rs:76-77 | the check on stored names accepts exactly what the encoder of section 3 of RFC 3629 writes |
| Interner.CounterReadsAsText | summ-meta/src/interner.rs:69-80 | after the first name is interned the counter's bytes are text, so resolving the reserved id caches it as a name |
| Interner.RepoInterner.constructor | summ-meta/src/interner.rs:43-50 | empty caches over any sound store, a restart's included, agree with it |
| NameRaces.MappingSurvives | summ-meta/src/interner.rs:86-115 | with lookup, double-checked allocation under its lock, drop, forget and eviction taken apart, names and ids are mutual inverses in every interleaving |
| NameRaces.IdsAreIssuedOnce | summ-meta/src/interner.rs:91-115 | in every interleaving a later allocation issues a later id |
| NameRaces.StaleIffForgotten | summ-meta/src/interner.rs:55-66 | a lookup leaves a stale cache entry iff the mapping it read was forgotten before it remembered it |
| NameRaces.SlowLookupPoisonsTheCache | summ-registry/src/delete.rs:264-277 | such an interleaving of one lookup and one drop |
| Runs.WatermarkIsExact | summ-meta/src/interner.rs:117-131 | in every run, an id is below a reading of the counter iff a name had been interned under it by then |
| Staging.StageBlobs | summ-registry/src/registry.rs:545-605 | goes ahead iff every layer not foreign is stored and this repository's, else names the first that is not; stages an edge, a missing membership and the mark's removal for exactly the layers this repository holds |
| Staging.StageChildren | summ-registry/src/registry.rs:608-630 | goes ahead iff every child is stored, else names the first that is not; one edge per child |
| Staging.ValidateTag | summ-registry/src/reference.rs:73-95 | accepts exactly the tag grammar, and what it accepts contains no NUL and is text |
| Staging.StageSetTag | summ-registry/src/tags.rs:105-162 | the net effect of one tag: displaced edges out; record, reverse edge, event pair and artifact referrer in |
| Staging.StageTags | summ-registry/src/registry.rs:503-529 | every tag once, the first invalid one refused, the first tag's displaced digest reported |
| Planner.PlanManifestPut | summ-registry/src/registry.rs:433-542 | goes ahead iff the digest claimed is the document's own, every layer not foreign is stored and the repository's, every child is stored and every tag is valid; else refused for the first of these that fails; the batch comes to exactly the push effect |
| Guards.RefusalIff | summ-registry/src/registry.rs:433-542 | a push is refused iff the claimed digest, a layer, a child or a tag is wrong, and with the error of the first of them |
| Planner.PlanManifestDelete | summ-registry/src/delete.rs:80-134 | unknown iff not stored; else the batch removes the manifest, every edge naming it and every tag pointing at it, and records the events |
| Planner.PlanBlobReferenceDelete | summ-registry/src/delete.rs:151-192 | unknown iff neither referenced nor held here; else edges, membership and mark go; the edges are counted |
| Guards.OtherRefusals | summ-registry/src/tags.rs:74-98 | a repoint, an untag, a manifest delete and a blob delete each fail exactly when what they need is absent, and with which error |
| Planner.StageDeleteTag | summ-registry/src/tags.rs:204-234 | the net effect of dropping one tag |
| Planner.Drain | summ-registry/src/delete.rs:199-213 | the cursor loop visits exactly the range, each key once |
| RepoDrop.Sweeper.SweepRepoRefs | summ-registry/src/delete.rs:349-375 | one page retracts exactly its manifests' blob edges |
| RepoDrop.Sweeper.FinishRepoSweep | summ-registry/src/delete.rs:387-413 | the prefix-delete batch removes exactly the keys carrying the id up front, and the outstanding-sweep record |
| RepoDrop.RangesCoverTheRepo | summ-registry/src/delete.rs:393-413 | the twelve dropped ranges are exactly the keys that lead with the id |
| RepoDrop.Sweeper.SweepOne | summ-server/src/backend.rs:1551-1569 | run to completion from any sound store, the store is what it was without every key that mentions the id |
| RepoDrop.Sweeper.ProbeEmpty | summ-registry/src/purge.rs:649-668 | the eight probes decide emptiness |
| RepoDrop.Sweeper.RetireRepo | summ-registry/src/purge.rs:626-647 | retires iff the name is known, its id is below the watermark and no live upload's, and no key in the eight ranges carries it; deletes the mapping and nothing else |
| Guards.RetireIff | summ-registry/src/purge.rs:626-668 | the eight probes and the watermark come to: the name is known, older than the watermark, no live upload's, and nothing that makes a repository worth keeping is stored |
| Purge.StageSweep | summ-registry/src/purge.rs:337-359 | one page's batch retracts exactly the stale memberships and clears their blobs' marks |
| Purge.Purger.SweepRepoBlobs | summ-registry/src/purge.rs:328-366 | reads a page and applies that batch, or nothing when only reporting |
| Purge.StageScan | summ-registry/src/purge.rs:421-451 | one page's batch maintains the marks, and the ripe list is exactly the ripe blobs |
| Purge.Purger.ScanBlobPage | summ-registry/src/purge.rs:406-453 | reads a page of blobs and applies that batch, or nothing when only reporting |
| Purge.Purger.CollectOne | summ-registry/src/purge.rs:470-490 | collects iff the record is stored, its mark has stood since the cutoff and no reference is stored; record and mark go together or not at all; the size is the record's |
| Guards.PurgeableIff | summ-registry/src/purge.rs:261-291 | a manifest may be purged iff it is stored, old enough, under no tag, no index's child and of no stored subject |
| Guards.StaleIff | summ-registry/src/purge.rs:337-359 | a membership is retracted iff it was added by the cutoff and no manifest of its repository references the blob |
| Guards.RipeIff | summ-registry/src/purge.rs:470-490 | a blob is collected iff it is stored, marked by the cutoff and referenced nowhere |
| Guards.CutoffIff | summ-server/src/backend.rs:1588-1591 | a cutoff is the span before the clock, or the epoch when there is no such instant |
| Purge.Purger.PurgeOnce | summ-server/src/backend.rs:1764-1835 | the paged membership and blob stages come to one whole-range judgement of each key |
| Requests.ServeKeepsInv | summ-registry/src/registry.rs:401-630 | every call, successful or refused, keeps: `G` iff `T`, `M` iff `Z`, tag targets stored; each `R`, `S`, `F` edge's ends stored and justified; `H` and `J` paired; no mark on a referenced blob; no key under an id that is neither live nor awaiting a sweep; names and ids mutual inverses |
| IndexSteps.PushedInv | summ-registry/src/registry.rs:459-529 | a push keeps them |
| Retractions.SetTagKeepsInv | summ-registry/src/tags.rs:74-162 | a repoint keeps them, edges synthesised from artifact tags included |
| Retractions.DeleteTagKeepsInv | summ-registry/src/tags.rs:174-234 | a tag delete keeps them |
| Retractions.DeleteManifestKeepsInv | summ-registry/src/delete.rs:80-134 | a manifest delete keeps them: no edge outlives either end |
| Upkeep.FinishKeepsInv | summ-registry/src/delete.rs:393-413 | once its blob edges are gone, wiping an id keeps them, leaves nothing that mentions it and touches nobody else |
| Upkeep.EmptyMeansUnmentioned | summ-registry/src/purge.rs:649-668 | the eight probes and the invariants imply no key in any range mentions the id, `Z`, `G`, `S`, `F` and `R` included |
| Requests.ServeIsClockSafe | summ-registry/src/registry.rs:255-287 | no call places a mark; one that commits, mounts, references or deletes a blob leaves it unmarked; memberships change only on unmarked blobs |
| Outcomes.CommitServes | summ-registry/src/registry.rs:228-287 | corollary of the commit batch: the blob is served here at its size, an existing membership keeps its clock, nothing else of any blob changes |
| Answers.CommitAnswers | summ-server/src/backend.rs:1050-1060 | key by key: the record at the size given, a membership of that size and second if there was none, the mark gone, the closed session gone in the same batch, nothing else |
| Answers.MountAnswers | summ-server/src/backend.rs:869-909 | a mount takes effect iff the blob is stored and the named source, if any, is entitled to it, and then lands the blob at its recorded size and nothing else; refused, it changes nothing |
| Outcomes.UnentitledMountIsRefused | summ-server/src/backend.rs:869-893 | corollary of the mount check: mounting out of a repository that could not serve the blob changes nothing |
| Outcomes.DeletedBlobIsNotServed | summ-registry/src/delete.rs:142-192 | a deleted blob is at once not served here and served elsewhere exactly as before |
| Answers.RemoveBlobAnswers | summ-registry/src/delete.rs:142-192 | a blob delete takes effect iff the repository is entitled to the blob, and removes its membership, this repository's references and the mark, nothing else |
| Outcomes.PushedManifestIsServed | summ-registry/src/registry.rs:405-543 | a pushed manifest is stored under every tag given, every layer it must have is referenced and served, memberships keep their clocks, other tags stay |
| Answers.PushAnswers | summ-registry/src/registry.rs:405-543 | a push takes effect iff it may, and then changes exactly the keys its document, its layers and its tags call for, the record stamped with the second it was pushed; otherwise nothing but the name changes |
| Answers.WrongDigestIsRefused | summ-registry/src/registry.rs:446-453 | a push by a digest that is not the document's changes nothing |
| Outcomes.DeletedManifestIsForgotten | summ-registry/src/delete.rs:63-134 | afterwards nothing in any range makes the manifest look stored, tagged or referenced |
| Answers.RemoveAnswers | summ-registry/src/delete.rs:63-134 | a manifest delete takes effect iff it is stored, and then removes every edge with an end there and every tag at it, with their events, and nothing else |
| Answers.PurgeAnswers | summ-registry/src/purge.rs:239-291 | a manifest purge takes effect iff nothing needs the manifest, and is then that delete; otherwise nothing changes |
| Answers.RetagAnswers | summ-registry/src/tags.rs:74-162 | a repoint takes effect iff the tag is valid and the manifest stored, key by key |
| Answers.UntagAnswers | summ-registry/src/tags.rs:174-234 | a tag delete takes effect iff the tag is there, key by key |
| Answers.OpenAnswers | summ-registry/src/uploads.rs:46-81 | opening a session writes its record, under the repository and second it was opened, and no other key |
| Answers.SessionAnswers | summ-registry/src/uploads.rs:111-140 | saving or ending a session touches that session alone |
| Answers.CountAnswers | summ-registry/src/counters.rs:94-137 | a counter write touches counters of the repository it names alone |
| Answers.DropAnswers | summ-registry/src/delete.rs:279-302 | a drop trades the name and its id for the sweep record and changes nothing else |
| Answers.RetireAnswers | summ-registry/src/purge.rs:626-647 | a retirement takes effect iff the name is retirable, and removes the mapping and nothing else |
| StepAnswers.InternAnswers | summ-meta/src/interner.rs:86-115 | a known name keeps its id; a new one takes the counter's value and moves it on by one; refused iff the counter has run out |
| StepAnswers.MemberPageAnswers | summ-registry/src/purge.rs:328-366 | a page of the membership walk removes the forgotten memberships on it and their blobs' marks, and nothing else |
| StepAnswers.BlobPageAnswers | summ-registry/src/purge.rs:406-453 | a page of the blob walk unmarks what is referenced, marks what is not at the pass's clock unless it is already marked, and picks exactly the collectable blobs |
| StepAnswers.CollectAnswers | summ-registry/src/purge.rs:470-490 | a collection removes record and mark iff the blob is still collectable, and nothing else |
| StepAnswers.BeginPassAnswers | summ-server/src/backend.rs:1665-1689 | a pass takes its clock once; its cutoff is the grace period before, floored at the epoch |
| StepAnswers.SweepPageAnswers | summ-registry/src/delete.rs:349-375 | a page of a drop's sweep removes exactly the edges its manifests' records list |
| Outcomes.CallsAreIsolated | summ-registry/src/registry.rs:401-630 | a call for one repository changes no key that mentions another |
| System.StepKeepsInv | summ-server/src/backend.rs:1665-1835 | every step of calls, passes, sweeps and crashes keeps the system invariant |
| Runs.ReachableInv | summ-registry/src/registry.rs:401-630 | all of the above in every state of every run from an empty store |
| Runs.PurgeSafety | summ-registry/src/purge.rs:296-490 | a collected blob has no reference anywhere, and every membership that survives it is stamped later than the cutoff |
| Runs.PurgeSafetyAtTheMark | summ-registry/src/purge.rs:304-366 | a repository holds a collected blob iff it held it, on a record stamped later than the marking clock, when the mark was placed and was not wiped since; so, wipes apart, nobody loses it iff that marking step was timely |
| Runs.PurgeSafetyWithTimelyMarks | summ-registry/src/purge.rs:328-490 | if no mark is stamped before a membership it finds, a collected blob has no reference and no membership in any repository |
| ClockSkew.SafetyNeedsTheClock | summ-server/src/backend.rs:1665-1689 | for any blob, a run that collects it while a repository holds it |
| Runs.ContinuousQuiet | summ-registry/src/purge.rs:425-487 | behind every collection is a marking step a grace period earlier, by the clock or the epoch exception; since then the mark stands, no call touches the blob, no pass retracts a membership of it, and a membership ends only by the wipe of its own repository |
| WipedHolder.WipesDoNotRestartTheClock | summ-registry/src/purge.rs:55-59 | for any blob, a run in which a held membership is wiped between mark and collection and the mark stands right through |
| EpochClock.EpochCutsTheGraceShort | summ-server/src/backend.rs:1588-1591 | for any blob, a run that marks and collects it within half the grace period, at the epoch |
| SplitScan.QuietSurvivesTheGap | summ-registry/src/purge.rs:395-451 | with a page's read and write apart, a collected blob still has no reference, and the quiet interval holds from the landing of its mark |
| SplitScan.ReferencedOnlyByAPush | summ-registry/src/registry.rs:545-605 | an unreferenced blob becomes referenced only by a push that links it |
| MarkingGap.MarkedIsUnreferencedIff | summ-registry/src/purge.rs:395-451 | in every run and for each blob, no marked state is a referenced one iff no mark of the blob landed on a reference |
| MarkingGap.MarkMeetsReference | summ-registry/src/purge.rs:395-451 | when a mark and a reference stand together, a page read the blob unreferenced, a push linked it while the page was pending, the mark landed on the reference, and has stood undisturbed since |
| MarkingGap.OldHolderLosesIff | summ-registry/src/purge.rs:337-366 | a collection takes a blob from a holder older than the cutoff iff the same pass's walk met and spared that holder for a reference, mark standing, and it was not wiped since |
| MarkingGap.UnracedBlobIsSafe | summ-registry/src/purge.rs:470-490 | a blob no push links while its mark is pending is never both marked and referenced, and every membership that survives its collection is stamped later than the cutoff |
| MarkingGap.InvariantsSurviveTheGap | summ-registry/src/purge.rs:406-453 | where no push races a pending mark, every invariant of the one-step machine holds in every state |
| PushAgainstPurge.PushOutlastsTheGrace | summ-registry/src/purge.rs:47-63 | if a layer a push planned on is collected, its mark was placed by a pass a grace period before the collecting one, a pass began since, and the mark followed the plan unless it was untimely or the repository was wiped |
| PushAgainstPurge.TimelyPushIsSafe | summ-registry/src/purge.rs:47-63 | with timely marks and no wipe, mark, grace period and next pass all follow the plan |
| RacedMark.MarkOnReferencedBlob | summ-registry/src/purge.rs:395-400 | such a state is reached |
| RacedMark.MarkOutlivesItsReason | summ-registry/src/purge.rs:395-400 | and from it a collection out of a repository that has held the blob since before the cutoff |
| Runs.MarkedIsUnreferenced | summ-registry/src/registry.rs:599-602 | a marked blob never has a reference |
| Runs.DropIsComplete | summ-registry/src/delete.rs:246-302 | from the tombstone on, the sweep is on record, or finished and the id never mentioned again, through any crash |
| Runs.FinishRemovesExactlyTheRepo | summ-registry/src/delete.rs:349-413 | the finishing step leaves no key mentioning the id and changes no other key |
| Runs.RetirementStrandsNothing | summ-registry/src/purge.rs:617-647 | a retired id is mentioned by no key in any range |
| Runs.ReleasedForGood | summ-registry/src/delete.rs:254-259 | a released id is never issued or mentioned again |
| RunAnswers.StoredWasPushed | summ-registry/src/registry.rs:405-543 | in every run, behind each stored manifest is a push of it that met every condition, by its own digest, and its record is that push's |
| RunAnswers.PurgedWasUnneeded | summ-registry/src/purge.rs:239-291 | in every run, a manifest that goes in a purge step was needed by nothing, and the push behind it is older than the step allows |
| RunAnswers.RetirementRespectsTheWatermark | summ-registry/src/purge.rs:549-559 | in every run, with a watermark read at some state, a retirement releases only an id in use by then; a name first interned later keeps its mapping |
| RunAnswers.MountsKeepTheRecord | summ-server/src/backend.rs:874-899 | in every run, a mount leaves the blob's record exactly as it was |
| Convergence.ThreePassesConverge | summ-registry/src/purge.rs:328-490 | from stamps not in the future, three request-free passes a grace period apart leave exactly the referenced blobs, every edge and referenced record unchanged |
| Convergence.TwoPassesAreNotEnough | summ-registry/src/purge.rs:328-490 | a store on which two such passes leave an unreferenced blob |
| TagHistory.HistoryAgreesWithState | summ-registry/src/tags.rs:136-149 | when a tag's stamps increase, it points at `d` iff its newest event is Created at `d`, in every run |
| TagHistory.SettingAgrees | summ-registry/src/tags.rs:127-149 | setting a tag keeps the agreement iff nothing newer is on record or the tag was already there |
| TagHistory.DroppingAgrees | summ-registry/src/tags.rs:219-232 | dropping one keeps it iff nothing newer is on record |
| TagHistory.PushAgreesIff | summ-registry/src/tags.rs:127-149 | a push keeps a tag and its history in agreement iff nothing newer is on record or the tag was already there |
| TagHistory.UntagAgreesIff | summ-registry/src/tags.rs:204-234 | a tag delete keeps the agreement iff nothing newer is on record |
| TagHistory.RemoveAgreesIff | summ-registry/src/delete.rs:80-134 | a manifest delete keeps the agreement of a tag it takes along iff nothing newer is on record |
| TagHistory.LateStampDisagrees | summ-server/src/backend.rs:663-752 | a whole run of two pushes of one tag, the second stamped earlier, after which they disagree |
| RepoLocks.IndexSurvivesInterleaving | summ-server/src/backend.rs:736-783 | with plan and apply apart under striped locks, stale lookups and unlocked wipes, every interleaving keeps `G` iff `T`, `M` iff `Z` and tag targets stored |
| LockedPurge.LockedCallIsServed | summ-server/src/backend.rs:736-783 | planned and applied with nothing in between, a locked mutation is exactly the call |
| LockedPurge.PurgeHoldsAtTheApply | summ-registry/src/purge.rs:228-259 | with plan and apply apart under the lock, at the moment a purge is applied still nothing needs the manifest, whatever ran between, its own wipe apart |
| RepoLocks.UnlockedPushesStrandAnEdge | summ-server/src/backend.rs:222-233 | without the lock, two pushes of one tag strand the first one's reverse edge iff the tag was not already there |
| RepoLocks.RetagAfterWipeDangles | summ-registry/src/tags.rs:74-98 | a bare repoint planned before a wipe dangles after it |
| RepoLocks.RepointKeepsIndexIff | summ-registry/src/tags.rs:74-98 | a bare repoint planned on a sound store keeps the index iff its repository was not wiped before it was applied |
| Stragglers.LeftForGood | summ-registry/src/delete.rs:324-338 | under an id with no name and no sweep, every key but an unreferenced membership stays as it is in every later state of every run, and a blob with an edge there keeps its record |
| Stragglers.StragglerPinsItsLayers | summ-registry/src/delete.rs:254-263 | a push planned while its repository lived and applied after its sweep finished leaves exactly its manifest and its linked layers' edges, for good |
| Stragglers.LateDropIsComplete | summ-registry/src/delete.rs:349-413 | applied while the sweep is on record, the finished drop leaves no key mentioning the id, except exactly the late edges when the running sweep had gone by the manifest and was not interrupted |
| LatePush.LatePushHappens | summ-registry/src/delete.rs:246-263 | a run with both windows: plan while live, then tombstone and sweep, then apply |
| LatePush.LatePushPins | summ-registry/src/delete.rs:246-263 | after it, in every later state, the layer is referenced and its record stays |
| LatePush.RetirementStraggles | summ-registry/src/purge.rs:626-647 | a run in which the id is retired, with no sweep, between plan and apply |
| LatePush.RetirementPins | summ-registry/src/purge.rs:626-647 | after it, in every later state, the layer is referenced and its record stays |
| BlobLocks.RecordsHaveFiles | summ-server/src/backend.rs:265-300 | in every interleaving of rename, record, mount, retract, remove, archive and crash under the digest lock, a `B` record's file is on disk |
| BlobLocks.StepsAreCalls | summ-server/src/backend.rs:865-909 | the metadata halves of the steps are the calls' own batches, and what is retracted may be collected |
| BlobLocks.WithoutTheLock | summ-server/src/backend.rs:265-271 | a commit let in between retraction and removal loses its file |
| BlobLocks.InterruptedCollectionIsInert | summ-server/src/backend.rs:1811-1829 | a collection cut short leaves a stray file and no record; the other order would not |
| Discovery.SearchRepos | summ-registry/src/discovery.rs:149-207 | a page holds every match up to its cursor and none beyond; no more names are examined than the ceiling; a cursor means the ceiling was reached or a further match was found; a limit or ceiling of zero answers as the code does |
| Discovery.ContainsIff | summ-registry/src/discovery.rs:130-140 | a name matches iff the needle occurs somewhere in it |
| Discovery.SearchAll | summ-registry/src/discovery.rs:149-207 | following cursors terminates and yields each matching name once, in order, for any limit and ceiling of at least one |
| HistoryPages.TagHistory | summ-registry/src/history.rs:83-117 | a page of events and a cursor that names its last event exactly; an empty page for a limit of zero |
| HistoryPages.ManifestTagHistory | summ-registry/src/history.rs:120-154 | the same for a manifest |
| HistoryPages.WholeTagHistory | summ-registry/src/history.rs:83-175 | following cursors yields each event once, even when a page ends inside one millisecond |
| HistoryPages.WholeManifestHistory | summ-registry/src/history.rs:120-175 | the same for a manifest |
| HistoryPages.HistoryReadsNewestFirst | summ-registry/src/history.rs:76-82 | either trail, with or without an instant: the listing is newest first and holds exactly the events before the instant |
| Uploads.WriteAllAt | summ-storage/src/upload.rs:292-311 | short writes, interrupts and failures: success writes the whole chunk, failure a prefix of it, bytes before the offset never change |
| Uploads.Rehash | summ-storage/src/upload.rs:268-284 | the rebuilt hash is that of exactly the first `len` bytes |
| Uploads.Upload.Append | summ-storage/src/upload.rs:159-190 | appends at the expected offset or leaves offset, hash and everything before it unchanged |
| Uploads.Upload.RehashAs | summ-storage/src/upload.rs:211-243 | switches algorithm over the same bytes, or keeps the old hash |
| Uploads.DrainInto | summ-server/src/backend.rs:506-548 | success means no frame broke off, the length is the declared one and within the limit, and the whole body landed; a failure is the one the body earned, and the start is intact; a clean body always lands |
| Uploads.UploadServer.Resume | summ-storage/src/store.rs:165-204 | reopens at the recorded offset with the hash of exactly those bytes, truncating the excess |
| Uploads.UploadServer.AppendUpload | summ-server/src/backend.rs:946-992 | a chunk is accepted whole, at its declared length, sent from the recorded offset, or the session record is unchanged, a crash before the save included; each error says what was wrong |
| Uploads.UploadServer.FinishUpload | summ-server/src/backend.rs:994-1063 | a successful close publishes exactly the accepted bytes and the closing chunk under their own digest, after an algorithm change too; a failed one changes no session, keeps the staged bytes, and says what was wrong |
| Uploads.RunSession | summ-server/src/backend.rs:946-1063 | over any run of attempts, the accepted bytes are the chunks answered with success, in order, each a whole body at its declared length sent from where the last one ended; the published blob is those and the closing chunk |
| Counters.AddHour | summ-core/src/types.rs:278-287 | saturating addition at one hour, other hours untouched, hours past the day ignored |
| Counters.Accumulator.Add | summ-server/src/counters.rs:280-297 | existing buckets always accept, new ones only below the cap, refusals tallied |
| Counters.RecordManifestPull | summ-server/src/counters.rs:142-172 | each of a pull's increments is accepted or tallied as dropped, exactly once |
| Counters.PullCountsOnce | summ-server/src/counters.rs:142-172 | a pull counts once at its manifest's, its repository's and, if it came by tag, its tag's slot of that day and hour, as a manifest pull, and nowhere else |
| Counters.RecordBlobBytes | summ-server/src/counters.rs:183-199 | the same for blob bytes, repository scope only |
| Counters.BytesCountOnce | summ-server/src/counters.rs:183-199 | a blob served counts as one blob pull and its bytes at its repository's slot, and nowhere else |
| Counters.Accumulator.Drain | summ-server/src/counters.rs:205-219 | hands over exactly what was accepted, one entry per bucket, and empties the map |
| Counters.FoldIsCappedSum | summ-registry/src/counters.rs:117-130 | folding increments one by one is the capped sum |
| Counters.PlanFlush | summ-registry/src/counters.rs:105-137 | one put per bucket of a known repository, no key twice, unknown repositories skipped |
| Counters.AddPullCounts | summ-registry/src/counters.rs:94-137 | every known bucket gains exactly its own increments and is then stored; a key none of them is for is left as it was; the count is of the buckets written |
| Counters.FlushCounters | summ-server/src/backend.rs:1436-1462 | a flush adds exactly what was waiting to a bucket's accounts and empties the map |
| Counters.RunCounters | summ-registry/src/counters.rs:94-137 | over any run of recorded pulls, flushes and other writes, each stored hour is the capped sum of the increments flushed, and every increment offered was flushed, is waiting, or was tallied as dropped |
| Counters.GroupingIsInvisible | summ-registry/src/counters.rs:84-93 | neither their order nor their split into flushes shows |
| CounterWindow.ReadWindow | summ-registry/src/counters.rs:176-226 | the window's first rows, four for each day asked for, read as days in order, each the capped sum of its shards; with at most four shards a day that is exactly the stored days of the window |
| CounterWindow.FlushedIsRead | summ-registry/src/counters.rs:176-226 | what was flushed for a bucket on a day of the window is what the window reads for that day, when one shard holds it |

## Left out

* HTTP handlers, authentication, configuration, the UI and error bodies: plumbing around the layer modelled here.
* RocksDB internals (bloom filters, prefix-mode seeks, compaction): the iterator is a total-order walk with an upper bound, which is the engine trait's own contract.
* Record encodings, zstd, JSON manifest parsing and SHA-2: uninterpreted, with round-trip and determinism assumed; hash state save and restore is taken to be exact.
* fsync, power loss and directory durability: only process crashes between steps are modelled.
* Cancelled request futures while a lock is held, panicking blocking tasks (an upload handle left without its state), and concurrent requests on one upload session.
* Overlapping purge passes: a pass begins only when none is running.
* `validate_references = false`, under which a push may write a record for bytes that are not there, by design.
* Completeness, as opposed to soundness, of `R` after a blob delete, `S` after a child is deleted and pushed again, and `F` when several artifact tags name one subject: the code does not maintain these.
* The purge stages for abandoned uploads and the catalogue walks around untagged manifests and empty names: the per-item calls they make are modelled, the loops add nothing to them.
* Convergence.ThreePassesConverge: covers the membership and blob stages with untagged-manifest purging off, which is its default.
* Discovery.SearchAll: following cursors is stated for a limit and a ceiling of at least one; with either at zero the code serves nothing, which `SearchRepos` states.
* Counters.Accumulator.Add: counts are unbounded naturals in memory, where the source adds 64-bit integers without saturation between flushes.
* Counters.AddHour: the bucket is a value; the source updates the arrays of a copied struct in place.
* Interner.RepoInterner.InternName: one step here; `NameRaces` takes the allocation and its lock apart, over the name-to-id cache only.
* Collecting a blob is one step, as is each page of the membership sweep: only the marking scan is taken apart.
* Counters.FlushCounters: a flush that fails loses what it drained; only flushes that succeed are modelled.
* List endpoints, usage and count pages, and `memory.rs`, the in-memory test double.
