# Specula, verified: the cache, the protocols around it, and the algorithms beside it

Specula is a pull-through artifact cache. It keeps bytes in a content-addressed store
(CAS), rows of metadata that name them, and mutable tag pointers; it fetches upstream
under a cross-replica lock; it can be seeded from an OCI image layout; and its admin plane
edits a config file and the members of organisations. This project models those parts in
Dafny and proves what the code keeps, over every input, every run and every interleaving.

`dafny verify dfyconfig.toml` checks everything.

## How it is laid out

| file | what it holds |
|---|---|
| `Wrappers.dfy` | a value that may be absent |
| `Text.dfy` | byte-wise string order, the parts of Go's `strings` that are used |
| `CacheRows.dfy` | metadata rows, upsert, the listing order and page contents, byte totals |
| `CacheSteps.dfy` | single durable writes, rows-imply-blobs, eviction as "drop oldest until it fits" |
| `SoftExpiry.dfy` | TTL cliff and XFetch early refresh |
| `CacheRuns.dfy` | Store, import, delete and pin as write sequences; runs cut off after any write |
| `CacheTheorems.dfy` | what Lookup, LookupStale and ServeEntry promise in every reachable state |
| `CachePointers.dfy` | one pointer per tag, what is found and served, what is recorded, promoted and refused |
| `BlobHashes.dfy` | when every CAS blob hashes to its key, and what a digest pin is then worth |
| `CacheManager.dfy` | the manager as a class whose store calls may each fail; the paged eviction loop |
| `Stampede.dfy` | FetchLocked by any number of flights on any number of replicas |
| `Locker.dfy` | the in-process lock table: entries, release channels, timers, waiters |
| `LockSimulation.dfy` | the lock table is the lock that `Stampede.dfy` assumes |
| `Quarantine.dfy` | streaming into a file while hashing, and resuming it |
| `ImportWalk.dfy`, `Import.dfy` | the manifest-graph worklist, and the import that writes it to the cache |
| `ConfigMerge.dfy`, `ConfigPolicy.dfy`, `ConfigLaws.dfy`, `ConfigRepeats.dfy`, `ConfigReport.dfy` | the map merge, what each option does, its laws, what repeated names do to them, and the change report |
| `NodeMerge.dfy`, `NodeLaws.dfy`, `NodeExact.dfy` | the YAML-node merge, that it means the same as the map merge, and exactly when |
| `OrgRules.dfy`, `OrgMeaning.dfy`, `OrgTheorems.dfy`, `OrgServer.dfy` | membership rules, the same said of the stored words, what runs keep, and the handlers |
| `ImageRef.dfy` | the two image-reference parsers |
| `GitCred.dfy` | the git-credential writer (with its in-place sort) and reader |

Operations that change state are methods on a class, or loops, proved against a
specification function; the theorems are about that function. A store call fails where a
method says `if *`, and a ghost counter `faults` says how often that happened, so a
contract can say both what holds whatever fails and what holds when nothing does. An
operation is a sequence of durable writes, and "the process stops" is a prefix of it.

## What turned out to be false, and exactly when it holds

- **XFetch is not antitone in the draw everywhere.** A draw of 0 is lifted to 1e-9 but a
  draw strictly between 0 and 1e-9 is not (and likewise near 1). `RefreshAntitoneInDraw`
  gives the exact pairs; `EarlyRefreshBound` gives the exact draws for which no refresh
  comes more than delta * ln(1e9) early.
- **An import can file bytes under a digest that is not theirs.** The importer declares the
  same digest for the ref and the artifact (internal/cacheimport/import.go:223, 268) and its
  manager has an empty verification chain (cmd/specula/cache_cmd.go:119), so nothing compares
  the bytes with the digest unless the blob driver does. The local driver hashes what it
  stores, the S3 driver compares sizes only. `ReachableHashKeyed`: with a driver that hashes,
  always; with one that does not, if and only if no import stores a new blob whose hash is
  not its declared digest. `TamperedImportIsServed` is the failing run. The comments that
  promise verify-on-write (internal/cacheimport/import.go:247-249,
  cmd/specula/cache_cmd.go:116-118) hold for the local driver alone.
- **Rows do not imply blobs under sub-step interleaving.** `InterleavedStore` says exactly
  when an eviction pass between another Store's blob put and row put strands the row, and
  `RacingStore` exactly when a Store between an eviction's reference count and its blob
  delete does.
- **Store then Lookup misses for a mutable ref.** The pointer Store writes has a TTL of
  zero, always revalidate, so Lookup misses and only LookupStale hits (`StoreThenLookup`).
- **Importing over a dangling row "succeeds" and serves nothing.** `ObjectLands` says that
  adopting a row is the one way, and exactly when; `DanglingAdoptionMisses` is the case.
- **One digest, two media types.** If a layout lists the same digest as a layer and as a
  manifest, the first descriptor met decides and objects are left out
  (`FirstDescriptorDecides`). `WalkFollowsFirstMet` says what a walk visits on every layout,
  and `WalkIsExact` what it visits when the kind depends on the digest.
- **An organisation can lose its last owner.** Accepting an invitation upserts the invited
  role without the guard that protects demotion, removal and leaving. `LosesLastOwner`:
  the sole owner accepting an invitation is the only way, for every request.
- **The two config merges disagree** in four ways: on quoted nulls, on blank scalars that are
  neither string nor null, on lists of scalars that are not strings and on entry names that
  are not strings (`QuotedNullDisagrees`, `BlankScalarDisagrees`, `NumberListDisagrees`,
  `NumberNameDisagrees`); the second is about scalars as the model decodes them. `FineExactly` gives the operator documents that merge alike with
  every good example, `GoodExactly` the examples that merge alike into every fine document,
  both as an if and only if on the shape of the document.
- **The two image-reference parsers disagree** exactly on references with a digest and on
  ones that start with `docker.io/index.docker.io/` (`WarmedAndSeededAgree`).
- **Merging twice can differ from merging once.** `MergeFreshTwice`: into an empty config it
  does if and only if a list of strings repeats a string or a list of named entries repeats
  a name, at a depth that merging reaches. `MergeTwiceExactly`: it makes no difference to any
  operator config if and only if the example is stable, which also looks at the named
  entries of mixed lists.
  `RepeatedNameCollapses` and `StringListStable` are the two failing families, and
  `RepeatedNameChanges` an example whose entries are stable one by one and not together.

Where code and comment differ, the code is modelled: the comment above
enforceCapacity (internal/cache/evict.go:18-20) speaks of a shared digest going missing for
its other rows, but the code keeps a blob that any remaining row names
(`CacheSteps.EvictBlob`).

## Model

| member | source | states |
|---|---|---|
| CacheRows.SortedMembers | internal/store/postgres/list.go:80-97 | the listing holds exactly the matching rows |
| CacheRows.SortedIncreases | internal/store/postgres/list.go:80-97 | the listing is strictly ordered, oldest creation time first, then by protocol, name and version, so pages never repeat or skip a row |
| CacheRows.PageIsOldest | internal/store/postgres/list.go:80-160 | a page holds rows of the match in order of age, and no row of the match that is off it is older |
| CacheRows.BytesCounted | internal/cache/evict.go:117-138 | the bytes that count are zero for no rows; each pull-through row adds its size and a hosted one nothing |
| Text.LessIsLexicographic | internal/store/postgres/list.go:96 | names compare at the first character that differs, and a proper prefix comes first |
| CacheSteps.FirstFitIsShortest | internal/cache/evict.go:45-108 | the number of evictions is the least one whose sizes reach what is needed, and all candidates when none does |
| CacheSteps.EvictionIsShortest | internal/cache/evict.go:21-115 | no shorter oldest-first prefix brings the pull-through total under the ceiling |
| CacheSteps.EvictsOldest | internal/cache/evict.go:45-66 | every row that goes is unpinned, pull-through, not protected, and older than every such row that stays; and they go oldest first |
| CacheSteps.OverCeilingNothingLeft | internal/cache/evict.go:56-108 | a pass that ends over the ceiling leaves no unpinned pull-through row but the protected one |
| CacheSteps.EvictionReachesCeiling | internal/cache/evict.go:21-115 | after a pass the total is at or under the ceiling, or no candidate but the protected row is left |
| CacheSteps.EvictionSpares | internal/cache/evict.go:47-101 | the protected row and every pinned or hosted row is no victim |
| CacheSteps.EvictRows | internal/cache/evict.go:67-101 | a pass removes exactly its victims' rows and no pointer |
| CacheSteps.EvictBlob | internal/cache/evict.go:67-101 | after an error-free pass an evicted digest is in the CAS exactly when it was and some surviving row, of any origin or pin state, names it; other blobs stay |
| CacheSteps.EvictSafe | internal/cache/evict.go:67-101 | no write of a pass, in order, strands a row |
| CacheSteps.CandidatesAfter | internal/cache/evict.go:45-66 | listing again after n evictions gives the remaining candidates in the same order |
| CacheSteps.WritesAre | internal/store/local/local.go:133-136 | what each single write does to each of the three stores |
| SoftExpiry.FreshExactly | internal/cache/xfetch.go:25-96 | in numbers: -1 is always fresh, 0 never, and otherwise an entry is fresh before its expiry plus one percent of its TTL (at least 100 ms) times the logarithm of the clamped draw; hard-expired from its expiry on |
| SoftExpiry.ExpiryIsFinal | internal/cache/xfetch.go:25-96 | a hard-expired entry is fresh for no draw, then or later; the refresh decision is monotone in time; an early refresh lies between threshold and expiry |
| SoftExpiry.RefreshAntitoneInDraw | internal/cache/xfetch.go:25-43 | a smaller draw refreshes at every instant a larger one does, if and only if the pair does not straddle the clamp |
| SoftExpiry.EarlyRefreshBound | internal/cache/xfetch.go:25-52 | no refresh comes more than delta * ln(1e9) before expiry, if and only if the draw is not strictly between 0 and 1e-9 |
| CacheRuns.PromotionEffect | internal/cache/cache.go:391-437 | blob, row and pointer, in that order: the whole state after, each write safe when it is made |
| CacheRuns.WritesSafe | internal/cache/cache.go:377-455 | no write of Store, import, delete or pin strands a row when it is made |
| CacheRuns.ReachableIntact | internal/cache/cache.go:377-455 | in every state reachable by Store with eviction, import, delete and pin, each cut off after any write, every row's digest is in the CAS |
| CacheRuns.ExemptRowSurvives | internal/cache/evict.go:47-101 | over every such run a pinned or hosted row is never removed and never loses its bytes, unless the operator deletes or unpins it |
| CacheTheorems.StoreThenLookup | internal/cache/cache.go:377-455 | after the storeOnce that ran, wherever its eviction stopped, an immutable ref is a hit on the stored digest; a mutable one misses in Lookup and hits in LookupStale |
| CacheTheorems.StaleCoversLookup | internal/cache/cache.go:300-347 | whatever Lookup answers LookupStale answers, up to the soft-expired flag; they differ exactly on hard expiry; not soft-expired is exactly fresh |
| CacheTheorems.DanglingIsMiss | internal/cache/cache.go:274-298 | in any state, intact or not, a dangling row is a miss and a vanished blob is served as a miss |
| CacheTheorems.InterleavedStore | internal/cache/cache.go:391-437 | with a pass between blob put and row put, rows still imply blobs if and only if the pass did not evict the digest or another row names it; if not, the lookup misses |
| CacheTheorems.RacingStore | internal/cache/evict.go:89-93 | with a whole Store between a pass's reference count and its blob delete, rows still imply blobs if and only if the Store was of another digest; if not, its put did nothing and lookups, fresh and stale, miss |
| CacheTheorems.BlobsAreVouched | internal/cache/cache.go:377-404 | every CAS blob of a reachable state was there before or was put with exactly those bytes by an operation whose verification did not fail |
| CachePointers.SamePointerExactly | internal/cache/cache.go:225-227 | two keys share a pointer if and only if they are equal, or one protocol's names and versions run into each other at a colon |
| CachePointers.OnePointerPerTag | internal/cache/cache.go:225-227 | versions without a colon have a pointer each |
| CachePointers.VersionsHaveTheirOwn | internal/cache/cache.go:225-227 | two versions of one name never share a pointer |
| CachePointers.OtherTagsAnswerAsBefore | internal/cache/cache.go:300-347 | an operation, cut off anywhere, leaves every other tag's pointer alone, and lookups of it answer as before unless its blob has come or gone |
| CachePointers.StoreOfOneTag | internal/cache/cache.go:415-437 | a store of one tag gives another tag of the name no answer it did not have |
| CachePointers.FoundExactly | internal/cache/cache.go:274-298 | an immutable ref is found if and only if its row, its blob and its pin agree; what is found is the row's digest |
| CachePointers.FoundByPointer | internal/cache/cache.go:300-347 | what a mutable ref finds, fresh and stale, in terms of its pointer, the blob, the pin, the expiry and the draw |
| CachePointers.WhatIsServed | internal/cache/cache.go:492-559 | an entry without a digest is served from the inline payload if there is one, and one with a digest from its blob |
| CachePointers.SliceIs | internal/cache/cache.go:537-559 | the requested part byte by byte, clamped at both ends |
| CachePointers.WhatIsRecorded | internal/store/postgres/postgres.go:97-140 | a store records digest and size as pull-through content; creation time, pin and hosted origin of an earlier row stay, other rows too |
| CachePointers.WhatIsPromoted | internal/cache/cache.go:377-390 | all but FAIL and an error are promoted |
| CachePointers.WhatIsRefused | internal/store/local/local.go:133-193 | of new digests, bytes of another size, and of another hash where the driver hashes |
| BlobHashes.StepKeepsHashKeyed | internal/cache/cache.go:391-404 | an operation, cut off anywhere, keeps every blob under its hash if and only if it does not store new bytes under a digest that is not theirs |
| BlobHashes.HonestExactly | internal/cache/cache.go:391-404 | every blob of every state of a run hashes to its key if and only if no step does that |
| BlobHashes.HashingDriverIsHonest | internal/store/local/local.go:123-205 | with a driver that hashes, no step of any run does, whatever is stored or imported and whatever verification says |
| BlobHashes.QuarantinedIsGenuine | internal/cache/quarantine.go:58-126 | what a quarantine copy leaves behind and reports has the reported hash and size |
| BlobHashes.OnlyImportsCorrupt | internal/store/s3/s3.go:267-324 | with artifacts out of quarantine a run can go wrong by imports only, and exactly by one whose new blob does not hash to its declared digest |
| BlobHashes.ReachableHashKeyed | internal/cache/cache.go:377-404 | every CAS blob of every reachable state hashes to its key: always with a driver that hashes; without, if and only if the imports are honest |
| BlobHashes.PinnedBytesAreGenuine | internal/cache/cache.go:246-251 | in an honest run a digest-pinned ref is only answered, fresh or stale, with the requested part of a blob that hashes to the pin and passed verification in the run |
| BlobHashes.TamperedImportIsServed | cmd/specula/cache_cmd.go:116-119 | with a driver that does not hash, tampered bytes are imported under any digest and served to whoever pins it |
| CacheManager.Manager.BlobPut | internal/store/local/local.go:123-205 | stores nothing when it refuses: a new digest whose bytes have the wrong size or, for a driver that hashes, the wrong hash; otherwise one write or a failure |
| CacheManager.Manager.ListEntries | internal/store/postgres/list.go:107-160 | a page is the oldest rows of the match, and the total is the size of the match |
| CacheManager.Manager.CacheSizeByOrigin | internal/cache/evict.go:117-138 | the bytes of all pull-through rows, pinned or not |
| CacheManager.Manager.BlobIsUnreferenced | internal/cache/evict.go:150-163 | without a failure, exactly whether no row names the digest; on a failure, no |
| CacheManager.Manager.EvictRow | internal/cache/evict.go:67-101 | row first, then the blob if nothing else names it; the exact writes made, and nothing on a failed row delete |
| CacheManager.Manager.EvictPage | internal/cache/evict.go:61-104 | one page evicts the next candidates in order, skipping the protected row; without progress the page held nothing else |
| CacheManager.Manager.EvictPages | internal/cache/evict.go:45-108 | the paged loop terminates, with zero-size rows too, and on success needs nothing more or has no candidate left |
| CacheManager.Manager.EnforceCapacity | internal/cache/evict.go:21-115 | writes exactly the eviction of a prefix of the victims, of all of them when it reports success, whatever fails |
| CacheManager.Manager.StoreOnce | internal/cache/cache.go:377-455 | writes a prefix of the store's writes, none when the driver refuses; the exact result for every verdict and every failure; eviction failures do not fail it |
| CacheManager.NothingLeft | internal/cache/evict.go:105-108 | a page with nothing but the protected row is the whole listing, because a page holds two rows when there are two |
| Stampede.World.FetchLocked | internal/coalesce/fetch_locked.go:28-62 | follows acquire, recheck, fetch, release on every path, releases what it acquired, and returns the cached, the fetched or no value accordingly |
| Stampede.CompleteCalls | internal/coalesce/fetch_locked.go:43-61 | all the ways through a call: no fetch after a recheck that hit or failed, and what was acquired is released, last |
| Stampede.WhatIsEnabled | internal/coalesce/locker.go:51-90 | a lock that is held is given to nobody, and a recheck hits exactly a cached entry |
| Stampede.WhatIsCounted | internal/coalesce/fetch_locked.go:28-62 | fetches, losses and expiries under a holder that has not fetched are counted, and nothing else |
| Stampede.StepKeepsInv | internal/coalesce/fetch_locked.go:28-62 | every atomic step keeps: fetches paid for by expiries, losses and the cached entry |
| Stampede.FetchBound | internal/coalesce/fetch_locked.go:28-62 | in every interleaving successful fetches are at most 1 + expiries under an unfinished holder + losses of the entry |
| Stampede.BoundIsMet | internal/coalesce/fetch_locked.go:28-62 | for all numbers of expiries and losses some run meets the bound: it is tight |
| Stampede.RecheckIsNeeded | internal/coalesce/fetch_locked.go:37-48 | without a recheck any number of fetches happens with no expiry and no loss |
| Locker.StepKeepsInv | internal/coalesce/locker.go:51-145 | every step of every caller, timer and holder keeps the table, channel and waiter invariant |
| Locker.ClosedExactlyOnce | internal/coalesce/locker.go:95-145 | a release channel is closed exactly when its entry has left the table, and once |
| Locker.NoLostWakeUp | internal/coalesce/locker.go:51-90 | a parked caller can go on, if and only if it does not wait on the current holder's channel |
| Locker.TimerFreesKey | internal/coalesce/locker.go:62-106 | a holder with a TTL always has its timer to come, which frees the key and wakes everyone parked on it |
| Locker.HandOver | internal/coalesce/locker.go:95-145 | a key goes from free to a caller that tried, and back by its own holder or its own timer only; a stale one changes nothing |
| Locker.LocalLocker.TryAcquire | internal/coalesce/locker.go:51-90 | the mutex section is the Try step; it gets the lock exactly when the key was free, else waits on an open channel |
| Locker.LocalLocker.EvictExpired | internal/coalesce/locker.go:95-106 | is the timer step, and never closes a channel twice |
| Locker.LocalLocker.Release | internal/coalesce/locker.go:124-145 | is the release step, and reports the fence error exactly when someone else holds the key |
| LockSimulation.TableStep | internal/coalesce/locker.go:51-145 | every step of the table, by any caller, timer or holder on any key, is seen through one key as a draw, an acquisition, a release, an expiry, a giving up or no step of the protocol |
| LockSimulation.TogetherIsRun | internal/coalesce/fetch_locked.go:28-62 | whatever steps the table makes, with the flights' own steps in between, the protocol allows each of them: the whole is a run of the protocol |
| LockSimulation.LocalFetchBound | internal/coalesce/fetch_locked.go:28-62 | so the bound on fetches holds over the lock table as it is coded |
| Quarantine.Sink.CopyFrom | internal/cache/quarantine.go:72-111 | the read loop with short writes, restarts and cancellation; hash and count always speak of the file's bytes |
| Quarantine.QuarantineAt | internal/cache/quarantine.go:146-232 | a resumed attempt is the copy that starts from the partial file, already hashed |
| Quarantine.QuarantineOnce | internal/cache/quarantine.go:58-126 | a fresh copy, whose file stays only when it completes |
| Quarantine.LeavesWhatItStreamed | internal/cache/quarantine.go:146-232 | an attempt, however it ends, leaves the file it found (or nothing, if it restarted) and every byte it was given since; it completes if and only if it ends at an end-of-file that is all in |
| Quarantine.NeverShrinks | internal/cache/quarantine.go:141-220 | without a restart the partial file only grows |
| Quarantine.ResumesNeverShrink | internal/cache/quarantine.go:141-220 | nor do any number of resumed attempts shrink it |
| Quarantine.AttemptKeepsPrefix | internal/cache/quarantine.go:128-232 | an attempt leaves a prefix of the object, and completes only with the whole of it |
| Quarantine.ResumedDigestIsWhole | internal/cache/quarantine.go:146-232 | across any sequence of aborted attempts the file stays a prefix, and the attempt that completes returns the hash and size of the whole object |
| Quarantine.DigestMatchesFile | internal/cache/quarantine.go:58-126 | whatever the reader sends, a completed copy reports the hash and size of its own file |
| Quarantine.CleanStreamCompletes | internal/cache/quarantine.go:72-126 | an uninterrupted stream, restarts included, completes |
| ImportWalk.PickManifest | internal/cacheimport/import.go:514-541 | the first descriptor the target wants, by digest, by being alone or by annotation, and an error exactly when it wants none |
| ImportWalk.WhatIsPicked | internal/cacheimport/import.go:514-541 | a digest decides; alone a manifest is picked unasked; else an annotation that is the tag or ends in a colon and the tag |
| ImportWalk.ChildrenAreNamed | internal/cacheimport/import.go:555-570 | a document leads to exactly the digests of its manifests and layers, and those of its config and subject unless empty |
| ImportWalk.ManifestKinds | internal/cacheimport/import.go:543-552 | exactly the OCI and Docker manifests and indexes are followed |
| ImportWalk.QueueIsMetFirst | internal/cacheimport/import.go:147-175 | the walk is breadth first: what is queued is met, in order, before what it leads to |
| ImportWalk.VisitsAreDistinct | internal/cacheimport/import.go:147-178 | the walk ends on every layout, cycles included, and visits each digest once, reading the blob it names |
| ImportWalk.WalkIsExact | internal/cacheimport/import.go:147-191 | when the kind depends on the digest: the walk completes if and only if everything reachable reads and parses, and has then visited exactly the digests reachable through the documents' own fields, and counted those that are manifests and those that are not |
| ImportWalk.FirstMetDecides | internal/cacheimport/import.go:154-175 | every visit takes its object as what the first descriptor met of its digest says |
| ImportWalk.WalkFollowsFirstMet | internal/cacheimport/import.go:147-191 | on every layout a walk that completes has visited exactly what is reachable when each object is what the first descriptor met of it says |
| ImportWalk.FirstDescriptorDecides | internal/cacheimport/import.go:154-175 | a layout with one digest under two media types whose walk completes and misses a reachable object |
| Import.WriteObject | internal/cacheimport/import.go:217-276 | nothing on a hit, one adopted row, or a Store; makes a prefix of those writes, none when the driver refuses the bytes, and succeeds and reports already-present exactly then |
| Import.ObjectHashKeyed | internal/cacheimport/import.go:246-275 | with a driver that hashes, whatever the layout holds, an object leaves every blob under its hash |
| Import.Adopt | internal/cacheimport/import.go:233-244 | records a row when one can be adopted, or changes nothing |
| Import.AdoptsFromCacheOnly | internal/cacheimport/import.go:281-291 | adopts if and only if a pull-through oci row has the digest; copies the oldest such row's digest and size under the target name |
| Import.PlanIs | internal/cacheimport/import.go:118-134 | the plan is the target's own name and tag, with the manifest the layout has for it |
| Import.TagPointerIs | internal/cacheimport/import.go:196-207 | the tag's pointer: the manifest's digest, under oci:name:tag, for the TTL asked for or thirty days |
| Import.ReportIs | internal/cacheimport/import.go:136-178 | the report names the image and counts manifests, blobs and bytes one by one |
| Import.ObjectPuts | internal/cacheimport/import.go:180-187 | an object reported as already present cost no blob put, and any other exactly one |
| Import.ImportMovesOneTag | internal/cacheimport/import.go:193-211 | an import leaves the pointer of every other tag of the image as it was |
| Import.ObjectLands | internal/cacheimport/import.go:229-244 | an object reported as written is found under the target name, if and only if it was not adopted from a row whose bytes had gone |
| Import.ObjectEffect | internal/cacheimport/import.go:217-276 | whatever happens to one object, rows keep implying blobs, no pointer moves, and with no ceiling no object of the image is lost |
| Import.SeedAll | internal/cacheimport/import.go:147-187 | the worklist loop is the walk, counts what it visits, and writes nothing on a dry run |
| Import.Run | internal/cacheimport/import.go:110-213 | real or dry the report is that of the walk; a dry run writes nothing and fails only on the layout; the tag pointer moves only when a real run succeeds; rows keep implying blobs; a driver that hashes keeps every blob under its hash; with no ceiling everything visited is found; the objects not already present are the blob puts it made; only a failing store or an object that verification or the driver refuses stops a sound import |
| Import.ImportedImageIsServed | internal/cacheimport/import.go:144-213 | after a successful import with no ceiling every digest reachable from the manifest is a hit under the target name, the report counts exactly those, and the tag resolves to the manifest until it expires |
| Import.DanglingAdoptionMisses | internal/cacheimport/import.go:233-244 | from a state with a dangling row the object is reported as present and missed |
| ConfigMerge.DeepMerge | internal/config/apply_example.go:204-234 | the loop over the overlay computes the key-by-key merge |
| ConfigMerge.MergeSlices | internal/config/apply_example.go:236-251 | computes the list merge that MergeTwice, MergeTwiceExactly and SequenceAgrees are about |
| ConfigMerge.MergeNamedMaps | internal/config/apply_example.go:253-302 | entries merged by trimmed name, in order of first appearance |
| ConfigMerge.UnionStrings | internal/config/apply_example.go:304-323 | first occurrences of both lists, in order |
| ConfigPolicy.KeyByKey | internal/config/apply_example.go:204-251 | what each key of the merge holds, for every pair of values and every option |
| ConfigPolicy.NameIs | internal/config/apply_example.go:325-340 | an entry's name is its trimmed name, when that is a string |
| ConfigPolicy.FirstsAre | internal/config/apply_example.go:304-323 | a union has the same members, each once, in the order of first occurrence |
| ConfigPolicy.ListsJoin | internal/config/apply_example.go:236-251 | lists without named entries: strings are united in order of first occurrence, anything else is left |
| ConfigPolicy.JoinedOrder | internal/config/apply_example.go:253-302 | a joined list has the operator's names and then the example's, each where it first occurs |
| ConfigPolicy.NamedListsJoin | internal/config/apply_example.go:253-302 | each entry is the operator's first of its name merged with the example's, or the one there is |
| ConfigLaws.OperatorScalarKept | internal/config/apply_example.go:204-234 | a non-null scalar on a path of mappings keeps its value unless Overwrite, or FillEmpty on an empty string |
| ConfigLaws.MergeTwice | internal/config/apply_example.go:204-323 | under the default policy merging the same stable example twice equals merging it once, whatever the operator has; mixed lists may repeat strings |
| ConfigLaws.MergeTwiceExactly | internal/config/apply_example.go:204-323 | for all operator configs merging twice is merging once, if and only if the example is stable |
| ConfigLaws.MergeFreshTwice | internal/config/apply_example.go:204-323 | into an empty config merging twice is merging once, if and only if the example is self-stable |
| ConfigLaws.SelfMerge | internal/config/apply_example.go:204-323 | a value merged with its own copy is unchanged if and only if it is self-stable |
| ConfigLaws.RepeatedNameCollapses | internal/config/apply_example.go:253-302 | a copied list of named entries that repeats a name loses an entry on the second merge |
| ConfigRepeats.RepeatedNameChanges | internal/config/apply_example.go:253-302 | two entries of one name in a mixed list, each stable, and an operator list that the second merge changes |
| ConfigLaws.StringListStable | internal/config/apply_example.go:304-323 | a list of strings merged with itself is unchanged if and only if it has no duplicate |
| ConfigReport.Diff | internal/config/apply_example.go:446-486 | the added and changed lists hold exactly the dotted paths that were added and changed |
| ConfigReport.ReportedExactly | internal/config/apply_example.go:446-486 | a path is added if it leads somewhere only afterwards, from mappings on both sides, and changed if it leads to different values that are not both mappings |
| ConfigReport.PathsAreDotted | internal/config/apply_example.go:446-486 | a path is its keys with a dot between each |
| ConfigReport.MergeKeepsKeys | internal/config/apply_example.go:204-234 | at every depth the merge keeps every key of a mapping it merges into |
| ConfigReport.ReportIsExact | internal/config/apply_example.go:446-486 | for every config, example and option both lists are empty if and only if the merge is the original |
| NodeMerge.MergeMappingNode | internal/config/apply_example_nodes.go:53-89 | the operator's pairs merged in place, then the example's new pairs |
| NodeMerge.MergeBasePairs | internal/config/apply_example_nodes.go:63-79 | the first loop: the operator's pairs in order, each merged with the example's last pair of its key |
| NodeMerge.AppendNewPairs | internal/config/apply_example_nodes.go:80-88 | the second loop: the example's pairs under keys the operator does not have |
| NodeMerge.MergeValueNode | internal/config/apply_example_nodes.go:91-108 | computes the value merge that ValueAgrees, FineExactly and GoodExactly are about |
| NodeMerge.MergeSequenceNode | internal/config/apply_example_nodes.go:110-124 | computes the sequence merge that SequenceAgrees is about |
| NodeMerge.MergeNamedMapSequence | internal/config/apply_example_nodes.go:126-158 | entries merged by name, in order of first appearance |
| NodeMerge.UnionStringSequence | internal/config/apply_example_nodes.go:160-178 | first occurrences by scalar value |
| NodeMerge.FindsLast | internal/config/apply_example_nodes.go:180-189 | of pairs that repeat a key the last counts |
| NodeMerge.ReadsFirst | internal/config/apply_example_nodes.go:191-198 | of an entry's names the first scalar counts, trimmed |
| NodeLaws.MappingAgrees | internal/config/apply_example_nodes.go:53-178 | on fine documents and good examples decoding the node merge equals the map merge of the decoded inputs for every option setting, and the operator's keys and comments are its prefix |
| NodeLaws.SequenceAgrees | internal/config/apply_example_nodes.go:110-178 | the same for sequences |
| NodeLaws.ValueAgrees | internal/config/apply_example_nodes.go:91-108 | the same for values |
| NodeLaws.MergedIsSound | internal/config/apply_example_nodes.go:91-178 | merging a fine and good example into a fine document gives a fine document with unique keys |
| NodeExact.FineExactly | internal/config/apply_example_nodes.go:91-178 | a document with unique keys merges alike with every good example under every option setting, if and only if it is fine |
| NodeExact.GoodExactly | internal/config/apply_example_nodes.go:91-178 | an example with unique keys whose lists repeat no name merges alike into every fine document under every option setting, if and only if it is good |
| NodeExact.NotFine | internal/config/apply_example_nodes.go:91-178 | for every document that is not fine, a good example and options on which the merges differ |
| NodeExact.NotGood | internal/config/apply_example_nodes.go:91-178 | for every example that is not good, a fine document and options on which the merges differ |
| NodeExact.QuotedNullDisagrees | internal/config/apply_example_nodes.go:224-226 | a quoted null is replaced by one merge and kept by the other |
| NodeExact.BlankScalarDisagrees | internal/config/apply_example_nodes.go:228-240 | a blank scalar of any other tag is filled by one merge and kept by the other |
| NodeExact.NumberListDisagrees | internal/config/apply_example_nodes.go:212-222 | every pair of different non-string scalars in lists is unioned by one merge and not by the other |
| NodeExact.NumberNameDisagrees | internal/config/apply_example_nodes.go:191-210 | every entry whose name is no string is kept by one merge and dropped by the other |
| NodeExact.RepeatedNameDisagrees | internal/config/apply_example_nodes.go:126-158 | two entries of one name, each good, that part the merges together |
| OrgRules.RolesAreStable | internal/org/org.go:88-113 | a normalised role normalises to itself, so what is written is what is counted |
| OrgMeaning.SameWord | internal/org/mem.go:35-37 | emails and roles are the same if and only if they agree up to ASCII case and surrounding white space |
| OrgMeaning.RoleNames | internal/org/org.go:88-127 | each role by its names, old ones included |
| OrgMeaning.OwnsIs | internal/admin/handlers.go:945-955 | owner authority is: a system admin, or a human whose own row says owner |
| OrgMeaning.ManagesIs | internal/admin/handlers.go:1362-1395 | admin authority is: a system admin, a key of that organisation, a system editor or admin, or a human whose own row says admin or owner |
| OrgMeaning.SparedIs | internal/admin/handlers.go:965-994 | the guard passes if and only if an owner, or admin, who stops being one leaves another counted one |
| OrgMeaning.PermittedExactly | internal/admin/handlers.go:1421-1609 | a request is answered Ok, when nothing fails, if and only if it is permitted, said of the rows alone |
| OrgMeaning.RefusedBecause | internal/admin/handlers.go:1421-1609 | which refusal a request gets, and in what order the reasons count |
| OrgMeaning.OutcomeExactly | internal/admin/handlers.go:1421-1609 | the stores after a permitted request, and after a refused one |
| OrgTheorems.LosesLastOwner | internal/admin/invitations.go:235-264 | a request, complete or cut off, takes an organisation's last owner if and only if the sole owner accepts a pending, unexpired invitation addressed to them |
| OrgTheorems.OwnerChangeIsAuthorised | internal/admin/handlers.go:945-994 | whoever changes the set of owners is an owner of that organisation or a system admin |
| OrgTheorems.OneOwnerAtATime | internal/admin/handlers.go:1421-1609 | an owner set changes by the one seat the request is about, and never grows by an acceptance |
| OrgTheorems.OtherOrgsUntouched | internal/admin/handlers.go:1357-1395 | members of every other organisation keep their rows and roles |
| OrgTheorems.MemberChangeIsAuthorised | internal/admin/handlers.go:1362-1395 | every membership write is by someone who manages members there, or on the caller's own seat by leaving or by accepting a pending, unexpired invitation addressed to them |
| OrgTheorems.LosesLastAdmin | internal/admin/handlers.go:978-992 | the last counted admin goes if and only if an owner or system admin makes them an owner, or they accept a pending invitation as something else |
| OrgTheorems.InvitationsSettle | internal/admin/invitations.go:150-194 | over every run an answered or expired invitation stays as it is and can be neither accepted nor declined |
| OrgTheorems.AcceptanceSettles | internal/admin/invitations.go:235-264 | an acceptance that completes leaves its invitation accepted |
| OrgTheorems.InvitesStayBelowOwner | internal/admin/invitations.go:103-119 | no invitation ever carries a role that acts as owner, legacy names included |
| OrgTheorems.AlwaysAnOwner | internal/admin/handlers.go:965-994 | over every run of add, patch, remove, leave, invite, accept and decline an organisation with an owner keeps one, unless its sole owner accepts |
| OrgTheorems.NonOwnersMayAccept | internal/admin/invitations.go:235-264 | acceptance by members who are not owners meets that condition |
| OrgTheorems.OwnershipCannotBeSeized | internal/admin/handlers.go:945-994 | over every run without an owner or system admin among the callers the owners stay the same |
| OrgTheorems.LastOwnerDemotesThemselves | internal/admin/invitations.go:235-264 | the concrete run that loses the last owner |
| OrgServer.Server.CallerIsOrgOwner | internal/admin/handlers.go:945-955 | yes only with owner authority, and exactly then when no read fails |
| OrgServer.Server.RequireOrgAdmin | internal/admin/handlers.go:1362-1395 | yes only with admin authority, and exactly then when no read fails |
| OrgServer.Server.GuardLastPrivileged | internal/admin/handlers.go:965-994 | passes only when the counts allow it; a count that cannot be read refuses |
| OrgServer.Server.HandleAddMember | internal/admin/handlers.go:1421-1494 | makes a prefix of the request's writes, says Ok only when allowed and done, and answers as the rules do when nothing fails |
| OrgServer.Server.HandlePatchMember | internal/admin/handlers.go:1497-1569 | the same for a role change |
| OrgServer.Server.HandleRemoveMember | internal/admin/handlers.go:1572-1609 | the same for a removal |
| OrgServer.Server.HandleLeaveOrg | internal/admin/invitations.go:284-315 | the same for leaving |
| OrgServer.Server.HandleCreateInvitation | internal/admin/invitations.go:49-96 | the same for inviting |
| OrgServer.Server.ResolvePendingInvite | internal/admin/invitations.go:150-194 | the checks in order; a lapsed pending invitation is retired |
| OrgServer.Server.AcceptInvitation | internal/admin/invitations.go:235-264 | membership first, status second, cut off anywhere |
| OrgServer.Server.DeclineInvitation | internal/admin/invitations.go:267-279 | the same for declining |
| ImageRef.WarmedAndSeededAgree | internal/bootstrap/prefetch.go:87-135 | a reference that can be warmed is seeded under the same repository and tag if and only if it has no digest and does not start with docker.io/index.docker.io/ |
| ImageRef.TargetMeans | internal/cacheimport/import.go:299-330 | what a target names, if and only if: repository@digest at the first '@', repository:tag at the last colon after the last slash, or a repository alone; Docker Hub dropped, bare names under library/ |
| ImageRef.SameSplit | internal/cacheimport/import.go:299-330 | both parsers split off the same tag |
| GitCred.ExchangeSort | internal/gitcred/helper.go:76-82 | the in-place exchange sort leaves the array ascending and a permutation of what it was |
| GitCred.WriteAttrs | internal/gitcred/helper.go:57-89 | prints the known keys in protocol order, the others sorted, then a blank line, whatever order the map is enumerated in; the text reads back as the same map if and only if the map is clean |
| GitCred.ListedByPlace | internal/gitcred/helper.go:57-89 | protocol, host, path, username, password, then the others in byte order, each once |
| GitCred.PrintedText | internal/gitcred/helper.go:57-89 | key=value and a newline each, and a blank line at the end |
| GitCred.ReadText | internal/gitcred/helper.go:34-52 | what each kind of line does: too long, blank, with an '=', without |
| GitCred.OneListing | internal/gitcred/helper.go:57-89 | there is one such order, so the text does not depend on the enumeration |
| GitCred.ParseAttrs | internal/gitcred/helper.go:34-52 | the scan loop: CR dropped, blank line stops, first '=' cuts, last duplicate wins, a line over the limit fails |
| GitCred.ParsedIsClean | internal/gitcred/helper.go:34-52 | no text reads as a key with '=' or a newline or a value with a newline |
| GitCred.RoundTrip | internal/gitcred/helper.go:34-89 | reading what was printed gives the same attributes back if and only if keys have no '=' or newline, values no newline or trailing CR, and every line fits |

## Left out

- Verification is a verdict per object (error, or a status); concrete verifiers are not part of this model. sha256 is an uninterpreted function; nothing assumes it injective. The drivers' check of a digest's form, and other hash algorithms, are left out.
- Store: two concurrent Stores of one digest coalesce and a follower gets the leader's entry with no row of its own; only the caller whose storeOnce ran is modelled.
- Lookups whose store reads fail are not modelled, except in the importer, where a failed lookup finds nothing.
- CacheTheorems.StoreThenLookup: says nothing about a follower of a coalesced Store, for the reason above.
- CacheManager.Manager.ListEntries: only what the cache asks for, the first page in order of creation; offsets, descending order and other sort columns are left out.
- CacheManager.Manager.CacheSizeByOrigin: leaves out the fallback to per-protocol sizes for stores without a per-origin sum, and deletion of rows by protocol drivers.
- Eviction and verification hooks, logging, metrics, tier, etag, upstream and verification time of a row: carried along by the code, decided on by nothing here.
- SoftExpiry.ExpiryIsFinal: instants and durations are reals, so rounding to nanoseconds and overflow for huge TTLs are not modelled.
- Stampede.World.FetchLocked: the path without a locker and the in-process singleflight around it are not modelled; no theorem needs them, because nothing is assumed about how many flights a process has.
- Redis as a locker, real clocks and timer delays: a lock may expire at any step, a timer may fire at any step.
- Locker.LocalLocker.TryAcquire: the retry loop of Acquire is the Begin, Try, Wake and GiveUp steps of the state machine rather than one method, because it blocks between them.
- Quarantine file names, directories, permissions and the digest-to-path rule.
- Tar extraction, file reading and JSON parsing in the importer: a layout is a map from digests to bytes and a parse function. A nil cache manager is an error before anything is modelled.
- Import.ImportedImageIsServed: speaks of imports without a ceiling, since a ceiling may evict one object of an image while the next is stored.
- YAML aliases, merge keys, non-string keys, styles and anchors; the decoder's number formats; section filtering and integration hints of apply-example.
- NodeLaws.MappingAgrees: assumes unique keys at every depth, since the decoder refuses a document that repeats one.
- NodeExact.BlankScalarDisagrees: a scalar is decoded by its tag alone, a null, a string or, for every other tag, a leaf of its own, by assumption. What the YAML library makes of application tags, and of blank text under a number or boolean tag, is not part of this model; where it yields no such leaf this way to disagree does not arise.
- NodeExact.NotGood: builds a partner for examples whose lists repeat no name, as NodeExact.GoodExactly.
- NodeExact.GoodExactly: is exact for examples whose lists repeat no name. With a repeated name the later entries are merged into the earlier ones, and whether the merges agree then depends on those entries taken together; that they do agree for good examples with repeated names is in NodeLaws.MappingAgrees, and that good entries of one name need not is NodeExact.RepeatedNameDisagrees.
- ConfigLaws.MergeTwiceExactly: is exact for examples whose mixed lists repeat no name, for the same reason (ConfigRepeats.RepeatedNameChanges); ConfigLaws.MergeFreshTwice needs no such condition.
- OrgRules.RolesAreStable: lower-casing covers ASCII letters only.
- Membership requests run one after another; two handlers racing between count and write are not modelled. Organisation creation, deletion and status, and HTTP decoding and status codes, are left out.
- GitCred.ParseAttrs: an unterminated last line of exactly the buffer's length is treated as too long; the scanner's answer then depends on how its reader reports the end. Read and write errors, and the rewriting of hosts, are left out.
- Protocol handlers, the upstream client, SQL, S3 and disk drivers, authentication, ACLs and the web interface.
