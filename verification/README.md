# Verified models of niks3

niks3 is a Nix binary cache: a server with a Postgres database in front of an S3 bucket, a
client that pushes store paths to it, and a post-build hook that queues paths for upload.
This project models the parts of it whose correctness depends on the order of events or on
an argument that spans several functions, and proves what they promise for every input,
every outside answer and every interleaving.

`dafny verify dfyconfig.toml` checks the whole project.

## The modules

Pushes and garbage collection (server):

- `GcState`, `GcSteps`: the tables, the bucket and the open transactions, and one step for
  each SQL statement, commit and S3 call. A step that needs a row another transaction holds
  is disabled.
- `GcSafety`: the invariant that every step keeps.
- `GcTheorems`: what follows for every execution.
- `GcStatGap`: an execution that shows why the stat and the registration of an upload must
  be one step.
- `GcLatePut`: an execution in which a late PUT leaves an object no collection finds.
- `GcGrace`: the grace period as the code computes it, and an execution for each case in
  which it is too short.
- `GcActors`: an actor's own steps among those of everyone else (`Served`), and what the
  others leave alone.
- `GcSpared`: what a garbage collection with one grace period spares.
- `GcCollects`: what a garbage collection does not leave behind, in any trace with its steps.
- `GcAnswers`, `GcService`: the server's functions, statement by statement, and what their
  steps add up to. Between any two statements `Others` lets the other requests take any
  number of steps. Every method says which protocol steps it took, so its contract refers to
  all states of the run and not only to the last.
- `Reachability`: the least closed set of a reference graph; shared with the client.

Archives (client):

- `NarFormat`: the NAR format and a parser for it.
- `NarListing`: the listing that is written beside an archive.
- `NarWalk`: the metadata walk, and the listing made without an archive.
- `NarWriter`: the serializer with its running offset.
- `NarPrefetch`: enqueuer, worker pool, writer and drainer around two bounded channels.

Narinfos and signatures (client and server): `Text`, `Narinfo`, `NarinfoAccepts` (which texts the
server accepts, line by line), `Signing`, `NixBase32`.

Uploads: `ClientClosure` (which objects a push lists), `Multipart` (part sizes, part URLs),
`HookQueue` and `HookWorker` (the hook's queue and worker), `StreamPush` (the stream pusher).

Access rules: `Glob`. Build farm: `FarmLead`. Helpers: `Order`, `Wrappers`, `Arithmetic`.

Where code meets the outside, its answers are parameters. `World` values give the answer to
every question by the time it is asked, so a statement about all worlds is a statement about
all behaviours of the network, the disk, the scheduler and the peers.

## What the environment is assumed to do

- A SQL statement takes effect at once, on one snapshot. The two statements that select on a
  snapshot and then lock rows (`LockObjectsReadyForDeletion`, `LockOldClosures`) are two
  steps, with other requests between them.
- The stat before `RegisterCompletedObject` and the registration are one step.
  `GcStatGap.StatGoesStale` and `GcTheorems.RegisterIsSafeIff` say what goes wrong otherwise.
- A client completes a push only after it has uploaded, or found in the bucket, everything
  it was offered. The commit itself does not look (`GcTheorems.CommitIsSafeIff`).
- The advisory lock admits one garbage collection at a time.
- A result of `PushFunc` that is longer than the batch contains some path of the batch. That
  is what `PushPaths` gives for store paths: it drops those that are cached, and returns the
  closure of the rest, or the batch if nothing is left (client/upload.go:556-723).
- In `FarmLead`, code between two waits takes no time; a ping, a write and a lock attempt do.

## What the models show about the code

- `GlobMatch` consumes a `*` of the subject literally, since it compares bytes before it looks
  for a star. It agrees with the meaning of every pattern exactly for subjects without `*`
  (`Glob.ExactIff`); it never accepts what does not match.
- The prefetcher can hold one buffer more than `prefetchQueueDepth`, against the comment on
  that constant (`NarPrefetch.BuffersBounded`, `NarPrefetch.BoundIsReached`).
- `Retry`'s comment says that everything tried sorts behind everything untried. An enqueue
  breaks that exactly if something tried is still queued (`HookQueue.InsertKeepsTriedLastIff`).
- Two leaders are excluded exactly if a ping and a write to the client fit into a heartbeat
  (`FarmLead.ExclusiveIff`); the code puts no deadline on that write.
- A PUT that outlives its push can leave an object no collection will find
  (`GcTheorems.LatePutCoveredIff`, `GcLatePut.LatePutIsLost`, `GcLatePut.LostUntilListed`);
  it never breaks a published closure.
- The grace period is the pending age in whole seconds, cut to an int32. It covers the age
  exactly if that is a whole number of seconds (or a fraction float64 loses upwards) below
  2^31 (`GcGrace.GraceIsFullIff`). Otherwise a run can mark and sweep an object that was live
  when it began before the age has passed (`GcGrace.ShortGraceSweepsEarly`): with 500ms at
  once, and with 600000h too, where the conversion gives a negative number.
- After a successful push of a batch some of whose paths were cached already, those paths stay
  in the hook's queue if the result is longer than the batch: the whole batch leaves exactly if
  it is not longer or contains all of it (`HookWorker.WholeBatchLeavesIff`,
  `HookWorker.CachedPathStays`). They go with a later batch.
- A stale push whose row a commit holds survives the cleanup, and one whose presence check
  and whose removal both failed stays until it expires; neither breaks anything
  (`GcService.Service.CleanupPendingClosures`, `GcService.Service.CreatePendingClosure`).
- Build logs are listed by a push but not referred to by its narinfo
  (`ClientClosure.ReachedUnlessLog`), so they do not count as part of the closure when rows
  are marked.
- A pin request for a store path that ends in a slash is refused, although the client would find
  its hash: the server does not trim slashes (`ClientClosure.PinFindsNarinfo`).
- `partSizeForNAR`'s sum wraps for the last 8999 sizes a uint64 can have, which then get the least
  part size (`Multipart.PartSizeIsLeast`).
- On a canceled context the stream pusher reports every line its loop has received; lines
  that only its reader has read are dropped (`StreamPush.StreamPusher.Run`).

## Model

| member | source | states |
|---|---|---|
| GcSafety.StepKeepsInv | spec/pushes.qnt:1-18 | every step of a push, a pin request or a garbage collection keeps the invariant: live rows have their bytes, checked pushes are backed, the sweep dooms nothing relied on, promises and pins hold |
| GcSafety.RunKeepsInv | spec/pushes.qnt:1-18 | the invariant holds in every state of every execution |
| GcSafety.PromisedIsKept | server/pg/query.sql.go:685-736 | whatever a published root was promised is among the rows MarkStaleObjects reaches |
| GcSafety.PublishKeeps | server/pg/functions/1_commit_pending_closure.sql:8-62 | folding a push whose objects are all in the bucket, reviving tombstones and merging refs, keeps the invariant |
| GcSafety.MarkKeeps | server/pg/query.sql.go:685-736 | marking tombstones nothing that a closure or a pending push needs |
| GcSafety.RecheckKeeps | server/objects_model.go:37-57 | after the recheck no key of the delete set is relied on by a push that has decided what is present |
| GcSafety.SweepEffectKeeps | server/objects_model.go:71-124 | removing a doomed key from the bucket, or failing to, breaks no promise, even if the answer is lost |
| GcSafety.SweepCommitKeeps | server/pg/query.sql.go:118-126 | deleting the rows of the removed keys breaks no promise |
| GcSafety.ExpireKeeps | server/pg/query.sql.go:14-72 | turning stale pushes into tombstones breaks neither promises nor other pushes |
| GcTheorems.PublishedObjectsSurvive | server/pg/query.sql.go:685-736 | while a closure row lasts, every listed object its root leads to has a live row and its bytes, for any interleaving |
| GcTheorems.PublishedClosureIsWhole | server/pushes.go:80-95 | for a listing closed under refs that is the whole closure |
| GcTheorems.CommitPushNamesLiveObjects | server/pg/functions/3_commit_push.sql:19-38 | a committed push names only objects it lists or that are live |
| GcTheorems.CommitPushIff | server/pg/functions/3_commit_push.sql:19-52 | a push can be committed exactly if it is ready, its rows are not held, and every key it names is listed or live; the commit unions refs, revives, dates the roots, drops the push and changes nothing else |
| GcTheorems.CommitClosureIff | server/pg/functions/1_commit_pending_closure.sql:15-62 | the same for a pending closure, which only has to be ready |
| GcTheorems.OnlyGarbageLeavesTheBucket | server/objects_model.go:37-124 | a key leaves the bucket only as a tombstone in a sweep, relied on by no push and promised to no closure |
| GcTheorems.VerifyingS3IsRedundant | server/pending_closure.go:227-300 | in reachable states the verify_s3 check finds nothing the database has wrong |
| GcTheorems.MarkIsExact | server/pg/query.sql.go:685-736 | marking leaves a live row live exactly if a pending push lists it or a walk along refs leads to it from a closure |
| GcTheorems.PinsNameClosures | server/pins.go:77-136 | every pin names an existing closure |
| GcTheorems.PurgeSparesPins | server/closure_model.go:46-73 | a purge deletes neither a pinned closure nor one a pin request holds, though its lock query sees old pins |
| GcTheorems.StepKeepsCovered | server/pg/query.sql.go:738-766 | every key in the bucket keeps a row or a checked push that lists it, through every step but a late PUT |
| GcTheorems.NothingIsUncollectable | server/pg/query.sql.go:14-51 | in executions without late PUTs nothing in the bucket is lost track of |
| GcTheorems.LatePutCoveredIff | server/pending_cleanup.go:17-89 | a late PUT is harmless exactly if the key has a row or a checked push and was not just removed by the sweep |
| GcTheorems.CommitIsSafeIff | server/pending_closure.go:436-452 | committing is safe exactly if the push's objects are all in the bucket |
| GcTheorems.RegisterIsSafeIff | server/uploads.go:420-452 | registering is safe exactly if the object is in the bucket at that moment |
| GcTheorems.RegisterIff | server/pg/query.sql.go:738-766 | an object is registered exactly if its bytes are there, a push lists it and no sweep holds its row; it is live then and keeps its refs |
| GcTheorems.UploadIff | client/multipart.go:296-328 | what was offered can be uploaded at any time, and counts as uploaded by a peer only while the push is pending and the bytes are there |
| GcTheorems.TouchIff | server/pg/query.sql.go:768-788 | closures can be touched exactly if their narinfo is live and their row is free; only their age changes |
| GcLatePut.LatePutIsLost | server/pending_cleanup.go:17-89 | that condition fails in a reachable state: a key is uploaded, its push expires, it is swept, and a second PUT to its URL lands |
| GcLatePut.LostUntilListed | server/pg/query.sql.go:608-637 | no step of any execution takes such an object out of the bucket or gives it a row, until another push lists its key |
| GcGrace.GraceIsFullIff | server/closure.go:236-246 | the grace period covers the pending age exactly if the age is a whole number of seconds, or rounds up to one, and fits an int32 |
| GcGrace.GraceIsNearlyFull | server/closure.go:236-246 | if it fits an int32, the grace period is less than a second off |
| GcGrace.NanosecondIsLostIff | server/closure.go:236-246 | an age one nanosecond short of a whole second rounds up to it exactly from 2^24 seconds on |
| GcGrace.GraceOfSomeAges | server/closure.go:236-246 | 500ms give no grace, 1900ms one second, 600000h a negative one |
| GcGrace.ShortGraceSweepsEarly | server/closure.go:236-248 | for every pending age the grace period does not cover, some execution marks and sweeps a live object before that age has passed |
| GcStatGap.StatGoesStale | server/uploads.go:454-526 | there is an execution in which a stat succeeds and the object is swept before the registration, with the key pending both times |
| GcActors.OthersKeep | server/pg/query.sql.go:608-637 | whatever the other requests do between two statements, the invariant and the actor's own transaction stay |
| GcSpared.GraceIsKept | server/pg/query.sql.go:608-637 | in every trace whose scans use one grace period, an object live at some moment loses neither bytes nor row, at any later moment, before that period has passed |
| GcSpared.LiveUntilGrace | server/closure.go:242-246 | so its row is there at every state of the run until then |
| GcCollects.TraceTracks | server/objects_model.go:29-125 | in every trace of a sweep an overdue tombstone no push lists is still ahead of all keys locked so far, or was locked and rechecked; once it counts as removed its bytes were gone and its row goes |
| GcCollects.CompleteCollects | server/objects_model.go:130-175 | every trace with the steps of a complete run collects each such tombstone, and without a grace period each live object no closure ever reaches |
| GcCollects.PurgeTakesAll | server/closure_model.go:46-73 | every trace with the steps of a purge deletes each closure that is old as long as it is there and never pinned or shared |
| GcAnswers.ExpiryIs | server/pg/query.sql.go:14-51 | the cleanup statement as a step of the protocol, and push by push and row by row |
| GcService.Service.ClosureReach | server/pg/query.sql.go:685-736 | the recursive query reaches exactly the rows on walks from closures |
| GcService.Service.MarkStaleObjects | server/pg/query.sql.go:685-736 | the statement stamps exactly the stale rows and returns their number |
| GcService.Service.LockObjectsReadyForDeletion | server/pg/query.sql.go:608-637 | every tombstone of the grace period's age after the given key that no push lists in the snapshot is locked, unless it was revived before the locks or the batch is full with keys before it; and nothing else is |
| GcService.Service.RemoveObjects | server/objects_model.go:71-100 | every key of the batch is asked for once, in order, and becomes the step its answer says; the keys counted as deleted are exactly those the bucket reported deleted or missing |
| GcService.Service.ConfirmSilent | server/objects_model.go:102-117 | one stat for each key without an answer; exactly those it finds missing count as deleted |
| GcService.Service.DeleteLocked | server/objects_model.go:53-125 | the recheck, one delete for exactly the locked keys whose row is there and that no push lists then, the stats, and the commit exactly if no statement failed |
| GcService.Service.SweepBatch | server/objects_model.go:29-125 | a row is deleted only if the bucket was asked then and answered deleted or missing, or gave no answer and a later stat missed it; and every such row is, if the transaction commits |
| GcService.Service.CleanupOrphanObjects | server/objects_model.go:130-175 | the loop ends and visits each key at most once; after success, in every trace with these steps, each tombstone of the grace period's age that no push lists meanwhile was visited and is gone with row and bytes, or its delete was not done; without a grace period so is each live object that no closure ever reaches; no object live at the start loses bytes or row within the grace period |
| GcService.Service.CleanupPendingClosures | server/pending_cleanup.go:17-89 | every upload is asked to abort; then exactly the pushes begun before the cutoff are removed and counted, but those an abort of which was refused and those whose row a commit held; every row stays, and what the removed ones list has a row now, a tombstone where there was none |
| GcService.Service.DeleteClosuresBefore | server/closure_model.go:48-73 | a purge with this cutoff, step by step; every closure it deletes is older than the cutoff, unpinned and unshared in the state of the commit, and in every trace with these steps each closure that is old and never pinned or shared is deleted; a failure deletes nothing |
| GcService.Service.RunGarbageCollection | server/closure.go:176-285 | success means that all phases ran: every abandoned closure is purged and every overdue, unlisted tombstone collected; the expiry takes no push younger than the pending age and touches no row; unless forced, an object that was live when the run began loses neither bytes nor row before the grace period has passed |
| GcService.Service.CreatePendingClosure | server/pending_closure.go:127-168 | a push is offered exactly those of its objects that are not live or have no bytes in the state of the lookup; the rest is live with its bytes as long as it is pending; after a failed check its rows are gone or nothing relies on them |
| GcService.Service.CreatePin | server/pins.go:26-149 | a created pin names the closure of the store path, which exists; it is refused only for a malformed path, a missing closure or a failure |
| Reachability.ReachIffPath | server/pg/query.sql.go:685-720 | the least closed set holds exactly what some walk along references ends in |
| NarFormat.DecodeEncode | client/nar.go:70-148 | length-prefixed, padded strings are read back as written |
| NarFormat.ParseDump | client/nar.go:474-618 | reading an archive gives back the tree |
| NarFormat.DumpIsInjective | client/nar.go:474-618 | no two trees have the same archive |
| NarListing.ArchiveIsLocated | client/nar.go:491-597 | for every regular file the archive holds its contents at the listed offset, with the listed size |
| NarWalk.WalkNode | client/nar.go:355-384 | walking an entry gives its classified tree |
| NarWalk.WalkDirectory | client/nar.go:386-451 | walking a directory gives the sorted children, or a refusal if two have one name, whatever order the unstable sort leaves |
| NarWalk.StripIff | client/nar.go:55-65 | with the case hack a name ends at its first marker, without it or without a marker it stays |
| NarWalk.AnySortWalks | client/nar.go:436-451 | any sorted permutation leads to the same walk |
| NarWalk.WalkIsCanonical | client/nar.go:436-451 | the walk's children are strictly ascending by name in every directory |
| NarWalk.WalkSucceedsIff | client/nar.go:386-451 | the walk succeeds exactly if the plain listing does and no two stripped names meet |
| NarWalk.ListingsAgree | client/listing.go:22-106 | without its offsets, the dump's listing is what GenerateListingOnly returns |
| NarWalk.GenerateDirectoryListing | client/listing.go:62-94 | the listing loop fills the map with the stripped names, a later entry replacing an earlier one |
| NarWriter.Writer.AlignedOffset | client/nar.go:111-148 | every string of the archive starts at a multiple of 8 |
| NarWriter.Writer.WriteString | client/nar.go:128-149 | the string is appended padded, and the offset stays the number of bytes written |
| NarWriter.Writer.WriteFileContentsStreaming | client/nar.go:179-231 | a file is copied in chunks exactly if at least as many bytes as its stat gave can be read, at the offset returned |
| NarWriter.Writer.WriteNode | client/nar.go:474-489 | a node's strings are appended, its small files taken from the queue in order, and its listing returned, exactly if all its files could be read |
| NarWriter.Writer.WriteDirectory | client/nar.go:545-597 | the same for a directory, entry by entry |
| NarWriter.Prefetcher.EnqueuePrefetch | client/nar.go:462-472 | the small files of a tree are enqueued in the order of the archive |
| NarWriter.ReadAheadIff | client/nar.go:453-458 | files of up to 256 KiB are read ahead, larger ones are not |
| NarWriter.DumpPathWithListing | client/nar.go:277-340 | a dump succeeds exactly if the walk does and every file can be read; then its output is the tree's archive |
| NarWriter.DumpIsFaithful | client/nar.go:270-340 | the archive is read back as the walked tree in canonical order, its listing locates every file, and without offsets is the plain listing |
| NarWriter.SameArchiveSameTree | client/nar.go:270-340 | file systems with one archive hold one tree and get one listing |
| NarPrefetch.WalksAgree | client/nar.go:453-472 | the enqueuer's walk and the writer's walk agree on files and order |
| NarPrefetch.StepKeepsInv | client/nar_prefetch.go:54-122 | every step of enqueuer, workers, writer and drainer keeps the invariant of channels, pool and readers |
| NarPrefetch.Progress | client/nar.go:277-340 | until a dump is over some goroutine can move, on success and after an error |
| NarPrefetch.EveryRunEnds | client/nar.go:277-340 | every run is bounded; one that cannot go on has returned, left no goroutine, and released every buffer |
| NarPrefetch.ReceivedIsWanted | client/nar.go:515-520 | the next item on the queue is always the file the writer is at |
| NarPrefetch.BuffersBounded | client/nar_prefetch.go:22-26 | at most prefetchQueueDepth + 1 buffers are owned at once |
| NarPrefetch.DumpRunsWell | client/nar.go:277-340 | for the dump of any walked tree and any pool, all four hold: bounded runs, the right file at each receive, the bound on buffers, and a clean end |
| NarPrefetch.BoundIsReached | client/nar_prefetch.go:22-26 | that many are owned in some run of every dump with so many readable small files and no unreadable file before them |
| NarPrefetch.OpsWriteTree | client/nar.go:474-597 | the writer's operations write the strings of the tree exactly if all its files can be read |
| NarPrefetch.DumpSucceedsIff | client/nar.go:277-340 | a concurrent dump that is over has succeeded exactly if every file could be read and nothing failed; then it has written the archive of the tree |
| Glob.GlobMatch | server/oidc/claims.go:173-217 | the loop ends; true means that the pattern matches, and for subjects without a star so does false that it does not |
| Glob.ScanIsSound | server/oidc/claims.go:188-208 | whatever the loop accepts from any of its states matches from there or from its last star |
| Glob.ScanIsExact | server/oidc/claims.go:188-208 | without a star in the subject, dropping all but the last star loses no match |
| Glob.ExactIff | server/oidc/claims.go:173-217 | the matcher is right about a subject for every pattern exactly if the subject has no star |
| Narinfo.ParseNarinfo | server/upstream.go:341-399 | the line loop computes the field-by-field meaning of the text, with its errors |
| Narinfo.FormatNarinfo | server/upstream.go:401-429 | the printer writes the fields of format in order |
| Narinfo.GenerateNarinfoContent | client/narinfo.go:13-73 | the client's printer writes its fields in order, references and signatures sorted |
| Narinfo.ParsedIsClean | server/upstream.go:341-399 | whatever parses has one-line fields, a size that fits and well-formed references |
| Narinfo.ParseFormat | server/upstream.go:401-429 | a printed info is parsed back, found at the server's key and with the given signatures |
| Narinfo.ReprintKeepsInfo | server/upstream.go:341-429 | an accepted narinfo survives being printed again with other signatures |
| Narinfo.ParseGenerate | client/narinfo.go:13-73 | what the client prints the server parses: the metadata with references and signatures sorted |
| NarinfoAccepts.ParseIff | server/upstream.go:341-399 | a text is accepted exactly if every line has a colon and a space, no name but Sig repeats, the size is a decimal below 2^64, and every reference is the digits of 20 bytes, a dash and a name without slash |
| NarinfoAccepts.UnknownLineIsSkipped | server/upstream.go:361-391 | a line with an unknown name that occurs nowhere else changes nothing, wherever it stands, on success and on error |
| NarinfoAccepts.ValuesAreHeld | server/upstream.go:361-398 | each value is held as written, missing ones are empty, and the compression is bzip2 then |
| NarinfoAccepts.SizeAndReferencesAreHeld | server/upstream.go:371-385 | the size is the number written and the references are the words written, in the store |
| Signing.GenerateFingerprint | server/signing/fingerprint.go:23-91 | the builder produces the fingerprint, and an error exactly if one of the four checks fails |
| Signing.SortedFingerprint | server/signing/fingerprint.go:50-53 | the order of the references does not matter |
| Signing.ClientSignatureSurvives | server/signing/verify.go:36-61 | a client's narinfo, read back, has the fingerprint that was signed, and verifies for exactly the same keys |
| Signing.FillKeepsSignatures | server/upstream.go:460-487 | a reprinted upstream narinfo verifies for whoever trusted the upstream or a new signature, and nobody else |
| Signing.FingerprintBinds | server/signing/fingerprint.go:19-22 | without separators inside paths, one fingerprint belongs to one path, hash, size and set of references |
| Signing.FingerprintReads | server/signing/fingerprint.go:74-91 | cut at semicolons a fingerprint gives 1, path, hash, size in decimal and the references, a sorted permutation between commas |
| Signing.NixInfoIsSigned | server/signing/fingerprint.go:28-48 | a narinfo of the store with the digits of 32 bytes as its hash has a fingerprint |
| Signing.VerifiesIff | server/signing/verify.go:36-61 | verified is exactly what carries, under the key's name, a signature the key accepts for the fingerprint |
| NixBase32.EncodeNixBase32 | api/nixbase32.go:12-44 | the loop reads one digit per five bits, most significant first |
| NixBase32.DigitIsBits | api/nixbase32.go:26-41 | the two shifted bytes of a digit hold five bits of the little-endian number |
| NixBase32.EncodedValue | api/nixbase32.go:12-44 | the encoding has ceil(8n/5) digits, whose value is the bytes' value |
| NixBase32.EncodeIsInjective | api/nixbase32.go:12-44 | no two byte strings of any lengths have one encoding |
| NixBase32.EncodeIsOnto | api/nixbase32.go:12-44 | digits that fill whole bytes are the encoding of some |
| NixBase32.AlphabetIs | api/nixbase32.go:7-8 | the alphabet is the digits and lower-case letters in order, without e, o, t and u |
| ClientClosure.Walk.Visit | client/upload.go:287-303 | the depth-first walk ends on cyclic references, meets only reachable paths, and leaves none of their references unmet |
| ClientClosure.ComputeClosureMembership | client/upload.go:277-308 | each top-level path gets exactly what it reaches |
| ClientClosure.PrepareClosures | client/upload.go:112-275 | one closure a top-level path; every reached path with info adds its narinfo, which refers to its archive, listing, realisations and the narinfos of its references, and those objects, and its log if it has one; nothing else is listed; it fails exactly if some path or hash is malformed |
| ClientClosure.KeysAgreeIff | client/upload.go:20-31 | two narinfos refer to one archive exactly if the NAR hashes agree, and to one listing exactly if the store path hashes do |
| ClientClosure.StorePathHashIff | client/nixstore.go:287-313 | a path has a hash exactly if its last element starts with 32 digits and a dash |
| ClientClosure.DigestIsHash | client/nixstore.go:298-310 | the digits of 20 bytes are the hash of every store path named after them |
| ClientClosure.PinFindsNarinfo | server/pins.go:228-238 | a pin request asks for the narinfo key the client publishes, exactly if the path does not end in a slash |
| ClientClosure.ListingIsClosed | client/upload.go:129-232 | for reference-closed infos a closure's listing is closed under refs and contains its root |
| ClientClosure.ClientClosureIsWhole | client/upload.go:234-275 | so a client closure published by /api/pending_closures stays whole on the server while its row lasts |
| ClientClosure.CreatePush | client/pending_closure.go:109-134 | the merged request has one root a closure, and every object once, the first with its key |
| ClientClosure.PushIsClosed | client/pending_closure.go:109-134 | for reference-closed infos the merged listing is closed under refs and contains every root |
| ClientClosure.ClientPushIsWhole | client/upload.go:378-417 | so everything a root of a push of any number of closures leads to stays on the server while that root's row lasts |
| ClientClosure.ReachedUnlessLog | client/upload.go:155-232 | the closure's narinfo leads to every object but the build logs, and to no build log |
| ClientClosure.FilterOversizedClosures | client/upload.go:323-376 | a limit of 0, or nothing dropped, changes nothing; otherwise kept, pruned and skipped are as documented, and paths and bytes are conserved |
| ClientClosure.KeptClosuresAreWhole | client/upload.go:318-376 | a kept closure has the objects it would have had, and no path over the limit |
| Multipart.RequestMoreParts | server/uploads.go:256-298 | part URLs are handed out for exactly the ranges within S3's limits, numbered in order |
| Multipart.UploadMultipart | client/multipart.go:222-328 | for every order in which the PUTs end, the object is the stream; the upload succeeds exactly if the stream is not empty, the URLs suffice and are handed out, every PUT succeeds and S3 completes the upload |
| Multipart.ChunksAreFull | client/multipart.go:238-300 | parts are numbered in order, all but the last are full |
| Multipart.PartSizeIsLeast | client/multipart.go:31-45 | the part size is the least allowed one with which 9000 parts cover the NAR, or the greatest there is; where the sum wraps it is the least of all |
| Multipart.EstimateIs | server/pending_multipart.go:45-70 | a fifth more part URLs than parts of 10 MiB, between 2 and 100, and 10 for an unknown size |
| Multipart.BudgetSuffices | client/multipart.go:18-45 | a NAR up to 9000 times 5 GiB, compressed to at most a tenth more, takes at most 9900 parts and no refused request |
| Multipart.BudgetIsTight | client/multipart.go:18-45 | the largest such upload asks for URLs up to 10000 |
| HookQueue.Queue.Enqueue | hook/queue.go:55-87 | new paths go to the back in order, duplicates are ignored |
| HookQueue.Queue.FetchBatch | hook/queue.go:92-120 | the head of the queue in row order |
| HookQueue.Queue.Remove | hook/queue.go:127-162 | the chunked deletes remove exactly the given paths and keep the order |
| HookQueue.Queue.Retry | hook/queue.go:167-190 | each path moves behind everything else |
| HookQueue.InsertKeepsTriedLastIff | hook/queue.go:164-166 | an enqueue keeps tried paths behind untried ones exactly if none in the queue has been tried |
| HookWorker.Worker.Upload | hook/worker.go:196-250 | a successful push takes out what settle says; progress shrinks the queue; without it the probed paths failed alone and moved back; in a failed batch fewer than three bad paths cost only themselves |
| HookWorker.WholeBatchLeavesIff | hook/worker.go:251-263 | a successful push takes the whole batch out exactly if its result is no longer than the batch or contains all of it |
| HookWorker.CachedPathStays | client/upload.go:567-606 | with a cached path in the batch that fails: every push succeeds and the cached path stays |
| HookWorker.Worker.Step | hook/worker.go:158-190 | a path leaves the queue only if a push asked for meanwhile succeeded with it or a stat asked for meanwhile missed it, the untried in order |
| HookWorker.Worker.Drain | hook/worker.go:125-153 | the drain ends; every path that neither went up nor was gone meanwhile is still queued; if every push fails it makes at most 12; with fewer than three bad paths it leaves only those |
| HookWorker.StallLowers | hook/worker.go:116-124 | a step without progress puts its bad paths behind every good one |
| HookWorker.FewerAhead | hook/worker.go:116-124 | so fewer bad paths stand before a good one after each such step |
| StreamPush.StreamPusher.Upload | client/streampush.go:266-316 | one result a path in order, each backed by a push of that path that ended as it says; pushes the batch and then single paths of it; gives up only if the first three all fail |
| StreamPush.StreamPusher.UploadRequest | client/streampush.go:243-264 | one push of all its paths and one result a path that says how it ended, or one error for a bad line |
| StreamPush.StreamPusher.Run | client/streampush.go:79-226 | every line received gets exactly its results, once each, for every select outcome; every result is backed by a push or is for a bad line; requests never share a push |
| StreamPush.FeedIs | client/streampush.go:87-98 | the reader passes on each line without its outer white space, and drops blank ones |
| StreamPush.OneMoreProbed | client/streampush.go:293-313 | probing one more path of a failed batch keeps the account of what failed |
| StreamPush.FinishedBalanced | client/streampush.go:118-126 | when a job ends, its results take the place of what it owed |
| FarmLead.LeadHandler | server/farm.go:82-157 | the loop behaves as the round function says |
| FarmLead.IncumbentLeadsAtOnce | server/farm.go:50-59 | the report of the round that takes the lock says that an incumbent leads, and of anyone else that it does not yet |
| FarmLead.TickIs | server/farm.go:109-110 | ticks come at whole heartbeats from the start, however late the last one was taken |
| FarmLead.AlwaysFresh | server/farm.go:126-157 | a stream that has announced is, while open, at most a heartbeat past the loss of its lock, and closes at most a ping timeout later |
| FarmLead.NeverBoth | server/farm.go:75-81 | a successor without the incumbent flag announces only when its predecessor's stream has ended |
| FarmLead.ExclusiveIff | server/farm.go:50-59 | two leaders are excluded exactly if ping timeout and write time fit into a heartbeat |
| FarmLead.DerivedTimeoutIsSafe | server/farm.go:16-29 | with the derived ping timeout, heartbeats under a second are never safe, and from two seconds on writes may take half of one |

## Left out

- Upstream fills beyond the narinfo text: they register paths whose references are not listed, and may remove an archive directly, so the push invariant does not cover them.
- Object sizes, object_stats and its trigger, the vacuum after a collection, statistics and metrics.
- GcService.Service.CleanupOrphanObjects: the set of keys the table may ever hold is fixed beforehand; it bounds the loop.
- GcService.Service.AwaitRows: a lookup or pin request that waits for another transaction sees it end by an abort; the protocol steps allow every ending.
- GcService.Service.RunGarbageCollection: its progress record is not modelled. Time is exact to the nanosecond, while the database keeps microseconds.
- GcService.Service.CleanupPendingClosures: a commit is one step, so which rows a commit holds at that moment is an arbitrary set; the query for the old uploads is a parameter.
- GcService.Service.DeleteClosuresBefore: a commit whose answer is lost is not modelled.
- GcService.Service.RemoveObjects: deletes are answered in the order they are asked for; the library sends them in groups.
- GcGrace.GracePeriod: the conversion to int32 as on amd64; other machines may give another number when it does not fit.
- NarWriter.DumpPathWithListing: a failing output writer is not modelled; a failing file is. Its queue is filled beforehand; NarPrefetch has both, with the bounded channels.
- NarWriter.DumpIsFaithful: archives of 2^64 bytes and more, whose offsets wrap.
- NarWalk.GenerateDirectoryListing: relies on os.ReadDir returning entries sorted by name.
- Narinfo.ParseNarinfo: text is a sequence of code points; invalid UTF-8 is not modelled.
- Signing.ClientSignatureSurvives: base64 and Ed25519 are a parameter.
- ClientClosure.PrepareClosures: the conversion of a NAR hash, the lookup of build logs and the query for realisations are parameters.
- ClientClosure.ReachedUnlessLog: assumes that different store paths have different hashes.
- StreamPush.StreamPusher.Run: signatures and skip reasons in results, and errors of the reader and of the output, are not modelled; running jobs end only between the loop's own steps.
- HookWorker.Worker.Drain: no path is enqueued meanwhile, and the local database does not fail.
- HookWorker: Run's waiting and backoff.
- Multipart.UploadMultipart: a failing reader, and an upload superseded by a peer.
- FarmLead.LeadHandler: the first n rounds of a stream, for every n.
- The rule matching around GlobMatch, OIDC, mTLS, HTTP decoding and status codes, presigning, rate limits, token caches, and the uploads of logs and realisations.
