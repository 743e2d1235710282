# imsub: proofs about the Redis adapter, its jobs and the bot's codec

imsub links Twitch subscribers to Telegram groups and keeps all of its state in Redis. This project
models the parts of it that are protocols rather than plumbing, and proves what they keep.

- **Incremental backup** (`RedisCommands`, `BackupProtocol`, `BackupAgreement`, `BackupTheorems`,
  `BackupAdapter`, `BackupExamples`, with `ExportedKeys` and `BackupKeys` naming the keys). A state
  machine over single Redis round trips: writers with their tracking hooks, and one backup run that
  renames the tracking sets away, bumps the generation, exports, uploads, and finishes or requeues.
  Crashes and failing calls are steps. The class `Adapter` is the sequential code; each of its methods
  extends a valid run of the machine.
- **Restore** (`RestoreChain`, `RestoreTheorems`, with `TextOrder`). How the admin tool resolves a chain from
  object storage, and that loading it rebuilds the store.
- **Read cache and entity indexes** (`ReadCache`, `EntityIndex`). The generation-checked list cache
  under interleaving, and the groups and creators tables it answers for.
- **Dump journal** (`DumpConvergence`, `DumpTheorems`, `DumpJournal`, `DumpPaging`). Rebuilding a
  subscriber or ban set from paged upstream reads while live events keep arriving.
- **Memberships and links** (`Membership`, `MembershipTheorems`, `MembershipStore`). Forward and
  reverse index, cut pipelines, the batched repair, and the Telegram to Twitch links.
- **Bounded jobs** (`PolicySweep`, `CleanupJob`, `MemberTags`, `TagSync`).
- **Codec and limiters** (`CallbackWords`, `Callbacks`, `CallbackForms`, `CallbackTheorems`, `CallbackTexts`,
  `Decimals`, `RateLimiters`).

Redis is a map of strings, sets and hashes; a command and a MULTI/EXEC pipeline are one atomic step,
and a plain pipeline may apply only its first commands (`internal/adapter/redis/doc.go:5`). Clocks,
network failures, Telegram and Twitch answers are parameters that range over every possibility.

Verify everything with `dafny verify dfyconfig.toml`.

## Where the code falls short of its intent

The model follows the code. These are the places where that shows, each with its exact condition:

- Keys written by the link script get no backup mark, and a set or hash whose last element is
  removed is marked dirty only, so its key is exported as nothing and never as a tombstone:
  `SilentKeysExact`, `SilentChangeExact`, `ForgottenUntilFull`, and the two runs in `BackupExamples`.
- A rotation that fails after its first rename returns no token, so the renamed marks are not
  requeued (`FailedRotationExact`), and it bumps no generation, so later writes of those keys send
  no mark either until the next bump: `MarkCacheHidesNoWrite`, `StrandedUntilBump`,
  `NextIncrementalMisses`, and the run in `FailedRotationHidesWrite`.
- A selected incremental that the listing does not contain is restored before its base:
  `UnlistedSelectionReversed`.
- An event that arrives between taking the journal and replaying it can be overruled by an older one:
  `RacedReplayExact`, `UnrecordedExact`, `RacedLeaverStays`, and over whole runs `RacedDumpExact`.
- Two concurrent upserts of one group or creator can leave it in the set of a creator or owner it no
  longer names: `RacingUpsertsExact`, `RacingCreatorUpsertsExact`.
- Repair removes the reverse entry of a group that still tracks a user but is no longer managed:
  `RepairHealsExactly`, `RepairDropsUnmanaged`.
- An empty stored Twitch id and Telegram id 0 break the one-to-one link: `LinkExact`, `EraseExact`,
  and the runs `EmptyIdOutlivesUser`, `EmptyIdOutlivesLink` and `AccountOfZero`.
- Promoting an untracked member deletes the record that tracking has just written, because both sides
  share one hash: `RescueErasesRecord`.
- A cleanup job's status forgets failures of earlier passes, so it can be trusted exactly for jobs that
  fit into one pass: `StatusTruthfulExactly`, `StatusTruthfulInProduction`, `StatusForgetsFailures`.
- The chat limiter reads its clock before taking its lock, so a pruning can be seen by a call that
  waited: `PruningIsSeenExactly`, `LikeUnprunedExactly`, `OvertakenCall`.
- A member tag longer than 16 runes, or with outer white space, is set again on every pass:
  `CleanPassReconciles`.
- `callbackAction.String` does not print the unregistration with an action as its parser expects it,
  which is why one builder writes its text by hand: `PrintOfParseExact`, `HandWrittenDiffers`.

## Model

| member | source | states |
|---|---|---|
| RedisCommands.SilentKeysExact | internal/adapter/redis/redis.go:462-504 | a successful command changes a key without the mark its new state needs exactly when the key is among the silent ones: an identity, Twitch-map or users key written by the link script, or a set or hash whose last element is removed |
| BackupTheorems.RestoredAgreesWithStore | internal/adapter/redis/backup.go:148-351 | over every interleaving of writers and the backup run, the image rebuilt from the last finished base and its incrementals has the store's value of each exported key that is outside the live and rotated sets, the pending hooks and the keys whose mark was dropped |
| BackupTheorems.MarkCacheHidesNoWrite | internal/adapter/redis/redis.go:373-446 | whenever the cache calls a key marked deleted, it is in the live set, or before the generation bump in the rotated one; a key marked dirty likewise, exactly unless a failed rotation since the last bump renamed its mark away and no SADD has put it back |
| BackupAgreement.StepKeeps | internal/adapter/redis/backup.go:148-351 | every step of a writer, its hook or the backup run keeps the invariant behind both statements |
| BackupAgreement.RunKeeps | internal/adapter/redis/backup.go:148-351 | the invariant holds after any number of steps |
| BackupTheorems.RunExportsOnly | internal/adapter/redis/backup.go:383-395 | no run ever writes an object entry for a key that a backup does not keep |
| ExportedKeys.ExportedExactly | internal/adapter/redis/backup.go:383-395 | which keys a backup keeps: those under imsub: that are not login states, the backup's own keys, one of the two locks, or a subscriber or ban dump |
| ExportedKeys.PassingKeysDropped | internal/adapter/redis/backup.go:383-395 | login states, locks, the backup's own keys and every dump key are not kept |
| BackupKeys.NothingPassingIsExported | internal/adapter/redis/backup.go:383-395 | over every run, no object entry is about a key outside imsub:, a login state, a lock, the backup's own keys or a dump, each named by its text |
| BackupKeys.ExportedPartExactly | internal/adapter/redis/backup.go:383-395 | the exported part of a store is its value at every kept key, and nothing at any other, spelled out by prefixes |
| BackupTheorems.RestoreEqualsStore | internal/adapter/redis/backup.go:110-146 | with no mark and no hook left, the restored keyspace is the exported part of the store exactly when it agrees on the keys whose mark was dropped |
| BackupTheorems.CleanRunKeepsGap | internal/adapter/redis/redis.go:330-392 | a run in which no step drops a mark leaves no dropped key |
| BackupTheorems.CleanRunRestoresExactly | internal/adapter/redis/backup.go:110-146 | after such a run, quiescent, a restore is exactly the kept part of the store |
| BackupKeys.CleanRunRestoresKeys | internal/adapter/redis/backup.go:110-146 | after such a run the restore has the store's value of every identity, reverse set, Twitch map, users set, group, group index, job and grace key, named by their texts, and no login state or lock |
| BackupKeys.CleanRunRestoresCreators | internal/adapter/redis/backup.go:110-146 | the same for creators, their indexes, subscribers and bans, while no dump of them is restored |
| BackupKeys.CleanWriteExactly | internal/adapter/redis/redis.go:462-539 | which commands drop no mark, told from the store before and after: all but a link that changes something and a removal that empties a kept set or hash |
| BackupKeys.ChangesAreMarked | internal/adapter/redis/redis.go:462-521 | any command but the link marks each kept key it changes: dirty where a value is left, deleted where the key goes by a delete or a rename |
| BackupTheorems.FullBackupClosesGap | internal/adapter/redis/backup.go:87-102 | a full backup finished after clean steps since its bump makes up for every mark dropped before |
| BackupTheorems.KeepsMarksExactly | internal/adapter/redis/backup.go:305-351 | a step lets go of a mark held in the live or rotated sets exactly when it is a failed rotation, a failed requeue, a finish or a crash while some rotated key is not live again |
| BackupTheorems.FailedRunsKeepMarks | internal/jobs/backup.go:65-123 | over any run without such a step, every mark held at its start is held at its end, whatever writers, failing hooks and failing exports do in between |
| BackupTheorems.NextBackupCoversHeld | internal/jobs/backup.go:65-123 | the backup next ready for upload after such a run covers the union of what they marked: a present key once marked dirty has an entry with its value in the object, an absent one once marked deleted a tombstone, unless it is marked again, waits in a hook, or had its mark dropped after the bump |
| BackupTheorems.FailedRotationExact | internal/adapter/redis/backup.go:305-327 | which keys a failed rotation newly leaves without a mark, and which of those it newly makes forgotten: exactly the present keys it had renamed away, not live again and in no hook that has yet to send its SADD; and the cache still calls them marked |
| BackupTheorems.StrandedExactly | internal/adapter/redis/redis.go:373-413 | in every reachable state before the bump, the marked keys that no dirty set holds and no hook is about to add are exactly those a failed rotation lost, of which no SADD is on its way |
| BackupTheorems.StepKeepsStranded | internal/adapter/redis/redis.go:373-446 | such a key stays without a mark through every step except a generation bump or a crash, complete writes of the key with their hooks included |
| BackupTheorems.StrandedUntilBump | internal/adapter/redis/redis.go:373-446 | the same over any run |
| BackupTheorems.NextIncrementalMisses | internal/adapter/redis/backup.go:77-84 | however often such a key is written before the next bump, the next incremental misses it, and its restored value stays wrong until it is written after the bump or a full backup finishes |
| BackupTheorems.SilentChangeExact | internal/adapter/redis/redis.go:485-502 | from a quiescent state one command makes a key forgotten exactly when it changes it silently |
| BackupTheorems.ForgottenUntilFull | internal/adapter/redis/backup.go:262-303 | over any run that does not touch the key again and finishes no full backup, store and restored value of a forgotten key both stay as they are, and so apart |
| BackupTheorems.IncrementalsHaveNewestBase | internal/jobs/backup.go:65-123 | with a clock that does not run back, every incremental is built on the newest full backup uploaded before it, finished or not |
| BackupTheorems.NewestBaseFromStart | internal/adapter/redis/backup.go:57-73 | the same for every run from the start |
| BackupTheorems.BackupKindExactly | internal/adapter/redis/backup.go:57-73 | over every run, an incremental is started exactly when a full backup has finished, the interval is positive and less than it has passed since that backup began |
| BackupExamples.FullBackupOfOneKey | internal/adapter/redis/backup.go:148-235 | a store with one key reaches a finished full backup that restores that key |
| BackupExamples.EmptiedSetComesBack | internal/adapter/redis/backup.go:278-280 | removing a set's last member after a full backup brings the set back at every restore until a full backup finishes |
| BackupExamples.LinkedViewerIsMissing | internal/adapter/redis/redis.go:524-539 | a viewer linked by the script after a full backup is missing from the users set that incrementals restore |
| BackupExamples.FailedRotationHidesWrite | internal/adapter/redis/redis.go:373-413 | a reachable run: full backup, write, failed rotation, and a second complete write whose hook sends no SADD, which leaves the key marked, in no set and forgotten |
| BackupExamples.HiddenWriteStaysMissing | internal/adapter/redis/backup.go:305-327 | from there the restored value stays the one before both writes until the key is written again or a full backup finishes |
| BackupExamples.EmptyIncrementalFinishes | internal/jobs/backup.go:65-123 | and an incremental does finish after it, with no entry, leaving nothing marked and the restore wrong |
| BackupAdapter.Adapter.UnmarkedTrackingKeys | internal/adapter/redis/redis.go:396-413 | the keys left over are those without a mark of the returned generation |
| BackupAdapter.Adapter.MarkTrackingKeys | internal/adapter/redis/redis.go:418-434 | marks only enter the cache while the generation is still the one checked |
| BackupAdapter.Adapter.RotateTrackingGeneration | internal/adapter/redis/redis.go:439-446 | the bump makes every earlier mark worthless |
| BackupAdapter.Adapter.RecordBackupTracking | internal/adapter/redis/redis.go:373-392 | the whole hook extends a valid run of the protocol, whether or not its writes succeed |
| BackupAdapter.Adapter.Process | internal/adapter/redis/redis.go:312-342 | a command with its hook extends a valid run that ends in the adapter's own state |
| BackupAdapter.Adapter.RotateBackupTracking | internal/adapter/redis/backup.go:305-327 | both renames and the bump, or the protocol's failed rotation when one of them fails |
| BackupAdapter.Adapter.WriteBackupBatch | internal/adapter/redis/backup.go:262-303 | dumping a batch writes one entry, with its value, for each kept key of the batch that exists, and nothing for a nil dump |
| BackupAdapter.Adapter.WriteBackup | internal/adapter/redis/backup.go:148-235 | the export: a full backup has an entry for exactly the kept keys of the store, with their values; an incremental has entries for the rotated dirty keys that exist and tombstones for the rotated deleted ones that do not; kept keys named by their prefixes |
| BackupAdapter.Adapter.RequeueBackupTracking | internal/adapter/redis/backup.go:329-351 | requeueing merges the rotated sets into the live ones and ends the run |
| BackupAdapter.Adapter.FinishBackup | internal/adapter/redis/backup.go:87-102 | finishing a full backup records its key and time and drops the rotated sets |
| BackupAdapter.Adapter.ShouldCreateFullBackup | internal/adapter/redis/backup.go:57-73 | a full backup is due exactly without a base, with a non-positive interval, or once the interval has passed since the base |
| BackupAdapter.Adapter.RunBackup | internal/jobs/backup.go:65-123 | one scheduled run: success leaves a base, no marks and no rotated set, and if no step so far dropped a mark a restore equals the exported store |
| RestoreChain.ResolveRestoreChain | cmd/imsub-admin/main.go:277-342 | for a listed incremental of a listed base: refused exactly when an object of the interval cannot be read, and otherwise the keys are exactly the base, the selection and the incrementals naming the base in between, once each, by time and then key; and each other refusal |
| RestoreChain.SortOrdered | cmd/imsub-admin/main.go:328-341 | the chain is put in order of upload time and then key, and no object is lost |
| TextOrder.LexExactly | cmd/imsub-admin/main.go:329-333 | the order of keys: a proper prefix comes first, otherwise the first letter that differs decides |
| RestoreTheorems.ChainExact | cmd/imsub-admin/main.go:277-342 | the chain is strictly ordered without duplicates and holds base, selection and exactly the base's incrementals in between; it starts at the base exactly when the base is older, and ends at the selection exactly when moreover nothing ties with it under a greater key |
| RestoreTheorems.UnlistedSelectionReversed | cmd/imsub-admin/main.go:277-342 | an incremental missing from the listing is placed before its base |
| RestoreTheorems.LoadChain | cmd/imsub-admin/main.go:243-275 | loading the chain applies each object's entries in order to the keyspace at hand |
| RestoreTheorems.LoadingBaseChain | internal/adapter/redis/backup.go:237-260 | applying a base and its incrementals to an empty keyspace gives the protocol's restored image |
| RestoreTheorems.ChainOfArchive | cmd/imsub-admin/main.go:277-342 | for the archive of a run, the resolved chain is the base's objects up to the selected one, in upload order |
| RestoreTheorems.LoadedChainIsRestoredImage | cmd/imsub-admin/main.go:243-342 | loading that chain into an empty keyspace gives the restored image |
| RestoreTheorems.RecoveryRebuildsStore | cmd/imsub-admin/main.go:243-342 | after a clean run that ended quiescent, resolving the newest object and loading the chain gives the store's value at every kept key, spelled out by prefixes, and nothing else |
| ReadCache.ListCache.Store | internal/adapter/redis/readcache.go:57-66 | exactly when no invalidation came since its generation was read, the list is served from now on, for less than 300 seconds |
| ReadCache.ListCache.Invalidate | internal/adapter/redis/readcache.go:68-74 | an invalidation empties the cache and outdates every load under way |
| ReadCache.SourceKeysExported | internal/adapter/redis/readcache.go:121-132 | the keys behind the cached lists are exported keys and never the link script's |
| ReadCache.LoadedKeysAreSources | internal/adapter/redis/readcache.go:107-132 | the two index sets and the hash key of every chat id and creator id are recognised as sources |
| ReadCache.SourcesAre | internal/adapter/redis/readcache.go:121-132 | and nothing else is: a source is an index set or a hash key with a non-empty id that holds no colon |
| ReadCache.WritesInvalidate | internal/adapter/redis/readcache.go:107-116 | every successful command that changes a source key reaches the hook under that key |
| ReadCache.StepCoherent | internal/adapter/redis/readcache.go:46-116 | every step of readers, writers and expiry keeps coherence |
| ReadCache.CachedListIsFresh | internal/adapter/redis/readcache.go:46-116 | over every interleaving, a cached list with no write awaiting its invalidation is what a fresh read returns |
| ReadCache.TornLoadNeverStored | internal/adapter/redis/readcache.go:57-66 | a load under way at an invalidation never reaches the cache |
| EntityIndex.UpsertKeepsIndexes | internal/adapter/redis/managed_group.go:204-248 | an upsert keeps the id set complete, and a creator's set exact except for the empty creator id left by a group that gains a creator |
| EntityIndex.UpsertFields | internal/adapter/redis/managed_group.go:204-248 | what a lookup returns after an upsert, field by field: the thread id is kept when none is given, an empty policy reads observe; in which creators' sets the group is; other groups are as before |
| EntityIndex.TagSyncFields | internal/adapter/redis/managed_group.go:251-264 | after a field update the flag is the one given and every other field, and every other group, as before |
| EntityIndex.StaleUpsertExact | internal/adapter/redis/managed_group.go:216-245 | an upsert that read an older hash leaves a creator's set exact unless the group has that creator by now, without it having been read or being written |
| EntityIndex.RacingUpsertsExact | internal/adapter/redis/managed_group.go:216-245 | after two upserts of one group that both read the same hash, every creator's set is exact if and only if the first one written named no creator, the second one's, or the one both read |
| EntityIndex.RemoveKeepsIndexes | internal/adapter/redis/managed_group.go:267-300 | a deletion keeps both and removes that hash and that id from the creator's set, and no other |
| EntityIndex.TagSyncKeepsIndexes | internal/adapter/redis/managed_group.go:251-264 | a field update keeps the id set complete exactly when the group has a hash |
| EntityIndex.CachedChatLookup | internal/adapter/redis/managed_group.go:53-70 | a lookup in the cached list answers as the hash does |
| EntityIndex.CachedCreatorFilter | internal/adapter/redis/managed_group.go:73-91 | the cached filter and the by-creator set give the same groups exactly when the set names, among ids with a hash, the creator's groups |
| EntityIndex.UpsertCreatorKeepsIndexes | internal/adapter/redis/creator.go:303-359 | an upsert keeps the creators set complete and an owner's set exact except for owner 0 left by a creator that gains an owner |
| EntityIndex.UpsertCreatorFields | internal/adapter/redis/creator.go:303-359 | what a lookup returns after a creator upsert, field by field, in which owners' sets the creator is, and other creators as before |
| EntityIndex.StaleCreatorUpsertExact | internal/adapter/redis/creator.go:304-325 | the same for an owner's set of creators |
| EntityIndex.RacingCreatorUpsertsExact | internal/adapter/redis/creator.go:304-325 | and for two upserts of one creator that read the same hash |
| EntityIndex.DeleteCreatorKeepsIndexes | internal/adapter/redis/creator.go:369-387 | a deletion keeps both and removes that creator and no other |
| EntityIndex.Adapter.ManagedGroupByChatID | internal/adapter/redis/managed_group.go:53-70 | cached or not, the answer is the stored hash |
| EntityIndex.Adapter.ListManagedGroups | internal/adapter/redis/managed_group.go:94-109 | cached or not, the list holds each indexed group exactly once |
| EntityIndex.Adapter.LoadManagedGroups | internal/adapter/redis/managed_group.go:124-159 | the groups loaded are those of the given ids that have a hash, each once |
| EntityIndex.Adapter.ListManagedGroupsByCreator | internal/adapter/redis/managed_group.go:73-91 | cached or not, for a real creator id the list is exactly the groups naming it, each once; for the empty id a cached answer is the groups without a creator, an uncached one what the by-creator set names |
| EntityIndex.Adapter.UpsertManagedGroup | internal/adapter/redis/managed_group.go:204-248 | the write, its index changes and the invalidation keep every cached answer right |
| EntityIndex.Adapter.DeleteManagedGroup | internal/adapter/redis/managed_group.go:267-300 | likewise for a deletion |
| EntityIndex.Adapter.LoadCreatorsByIDs | internal/adapter/redis/creator.go:157-208 | cached or not, the creators are those at the ascending places of the ids that have a hash and pass the filter |
| EntityIndex.LoadedAre | internal/adapter/redis/creator.go:157-208 | the uncached loading keeps exactly those places |
| EntityIndex.Adapter.ListCreators | internal/adapter/redis/creator.go:211-222 | cached or not, every creator once in ascending order of the ids, and the cache then serves that list |
| EntityIndex.Adapter.GetCreator | internal/adapter/redis/creator.go:113-130 | cached or not, the answer is the stored hash |
| EntityIndex.Adapter.StoreCreator | internal/adapter/redis/creator.go:303-359 | the write, its index changes and the invalidation keep every cached answer right |
| EntityIndex.Adapter.OwnedCreatorForUser | internal/adapter/redis/creator.go:277-300 | the owner's creator with the smallest id, and none only when the owner has none |
| EntityIndex.Adapter.DeleteCreatorData | internal/adapter/redis/creator.go:369-401 | the owner's creator and exactly the groups naming it are gone |
| EntityIndex.Adapter.ListActiveCreatorGroups | internal/adapter/redis/creator.go:242-274 | creators, each once and in ascending order of their ids, are paired with exactly their groups, each once, and no group of a stored creator is missing |
| EntityIndex.GroupByCreator | internal/adapter/redis/creator.go:242-262 | grouping keeps each creator's groups in list order |
| DumpConvergence.NetIsLastOperation | internal/adapter/redis/dump_journal.go:66-96 | adds and removes are disjoint, cover the members in the log, and say each member's last operation |
| DumpConvergence.LastOpExactly | internal/adapter/redis/dump_journal.go:66-96 | a member's last operation is that of the last log entry about it, and there is none when no entry is |
| DumpConvergence.ApplyAllExactly | internal/adapter/redis/subscriber.go:21-36 | replaying a log leaves a member in the set exactly when its last entry adds it, or it was there and no entry is about it |
| DumpConvergence.ReplayIsApplyAll | internal/adapter/redis/dump_journal.go:113-126 | one SADD and one SREM of the net sets equal replaying the whole log, in either order |
| DumpConvergence.StepKeeps | internal/adapter/redis/subscriber.go:52-86 | every upstream change, event step and dump step keeps the invariant that predicts the stored set |
| DumpTheorems.AgreesOutsideStale | internal/adapter/redis/subscriber.go:72-86 | over every interleaving, the stored set is right, up to events under way, about every member not counted stale |
| DumpTheorems.CleanDumpConverges | internal/adapter/redis/subscriber.go:72-86 | a dump that ends without a race leaves exactly the upstream set, up to events under way, however far the set had drifted before |
| DumpTheorems.RacedDumpExact | internal/adapter/redis/dump_journal.go:66-126 | for any run from begin to replay whose only race is with the replay, the dump leaves the upstream set, up to events under way, if and only if nobody's last event came between take and replay against the journal, except members another event is still to arrive about |
| DumpTheorems.RacedReplayExact | internal/adapter/redis/dump_journal.go:113-126 | an event between take and replay survives exactly when the journal does not hold the opposite as the member's last operation |
| DumpTheorems.UnrecordedExact | internal/adapter/redis/subscriber.go:21-27 | an event applied but not yet recorded at take survives exactly when dump and journal already agree with it |
| DumpTheorems.RacedLeaverStays | internal/adapter/redis/subscriber.go:72-86 | a concrete run in which a viewer who left stays subscribed |
| DumpJournal.DumpKeyNamesDest | internal/adapter/redis/subscriber.go:52-56 | a dump key determines its destination |
| DumpJournal.MemberSetsPlain | internal/adapter/redis/subscriber.go:52-56 | a subscriber or ban set of an id without colon is never itself a dump key |
| DumpJournal.OpenKeepsOneToOne | internal/adapter/redis/dump_journal.go:37-51 | beginning keeps in-flight dumps and journaled destinations in one-to-one correspondence |
| DumpJournal.CloseKeepsOneToOne | internal/adapter/redis/dump_journal.go:66-108 | so do taking and discarding |
| DumpJournal.DumpStore.BeginJournal | internal/adapter/redis/dump_journal.go:37-51 | an older dump of the destination is superseded and a fresh log opened |
| DumpJournal.DumpStore.RecordInJournal | internal/adapter/redis/dump_journal.go:54-62 | an event is appended to the destination's log, if one is open |
| DumpJournal.DumpStore.TakeJournal | internal/adapter/redis/dump_journal.go:66-96 | adds and removes are the members whose last entry in the log adds or removes them; nothing and no change for a superseded dump |
| DumpJournal.DumpStore.DiscardJournal | internal/adapter/redis/dump_journal.go:99-108 | the log is closed; a superseded dump leaves the newer log alone |
| DumpJournal.DumpStore.Mutate | internal/adapter/redis/subscriber.go:21-36 | a live add or remove changes the set by that member and is appended to an open log; it is the protocol's delivery and recording, and no step for other destinations |
| DumpJournal.DumpStore.NewDump | internal/adapter/redis/blocklist.go:52-56 | starting a dump is the protocol's begin |
| DumpJournal.DumpStore.AddToDump | internal/adapter/redis/blocklist.go:59-68 | writing a page is the protocol's page read for the dump in flight and nothing for a superseded one |
| DumpJournal.DumpStore.CleanupDump | internal/adapter/redis/blocklist.go:89-94 | cleaning up ends the dump in flight or, superseded, changes nothing but the dump key |
| DumpJournal.DumpStore.ReplayJournal | internal/adapter/redis/dump_journal.go:113-126 | the replay adds and removes the net sets of the dump's own log, or only the first of them when it fails; the log is closed either way |
| DumpJournal.DumpStore.FinalizeDump | internal/adapter/redis/blocklist.go:72-86 | for the dump in flight the set becomes the dump's, members whose last log entry adds them added and those it removes removed, as far as the replay got: rename, take and replay of the protocol; for a superseded one a plain overwrite that keeps the newer log |
| DumpPaging.ChunkingIsUnique | internal/core/dump_batch.go:5-27 | a list of ids has exactly one division into full batches and a non-empty rest |
| DumpPaging.DumpWriter.AppendDumpIDs | internal/core/dump_batch.go:5-20 | full chunks are written and the buffer stays below a chunk, so the loop ends; batches and buffer together are what came in; a failure is that of a full chunk |
| DumpPaging.DumpWriter.FlushRest | internal/core/dump_batch.go:22-27 | the rest is the last batch, the batches are the ids in order, and data was written exactly when some id was read |
| DumpPaging.ReadPages | internal/core/eventsub.go:286-319 | all pages reach the writer in order, with one token refresh at any page |
| DumpPaging.ReadExactly | internal/core/eventsub.go:286-319 | a reading is complete exactly when the last page comes before any failure and any second expired token |
| DumpPaging.ReadPagesAre | internal/core/eventsub.go:286-319 | its pages are those that came up to the last one, each once and in order |
| DumpPaging.DumpCurrent | internal/core/eventsub.go:267-338 | the set is replaced exactly when the pages end and every batch and the finalizing are written, and the dump succeeds exactly when moreover the creator's record is updated; a replaced set holds exactly the ids read and the total is their number; otherwise the set is as before and the dump key gone; no other destination is touched and no journal is left open |
| MembershipTheorems.DoKeepsPairs | internal/adapter/redis/tracked_membership.go:11-49 | no complete operation makes forward and reverse index disagree; only a pipeline cut between them can, for its own user and group |
| MembershipTheorems.OnlyCutPairsMismatch | internal/adapter/redis/tracked_membership.go:11-49 | over every run, the indexes disagree at most about pairs whose pipeline was cut |
| MembershipTheorems.OneRepairHeals | internal/adapter/redis/integrity.go:17-183 | after every run, cut pipelines included, one repair gives every user who is linked or tracked in a managed group exactly the managed groups that track them, leaves every other user alone, and any disagreement left is not new |
| MembershipTheorems.RepairWritesExactly | internal/adapter/redis/integrity.go:17-183 | the same effect from any index at all, cut or not |
| MembershipTheorems.RepairHealsExactly | internal/adapter/redis/integrity.go:17-183 | from any index at all, a repaired user's two sides agree exactly when no unmanaged group tracks the user |
| MembershipTheorems.RepairDropsUnmanaged | internal/adapter/redis/integrity.go:17-183 | a three-step run in which repairing undoes an agreement: the reverse entry of an unmanaged group goes while the group still tracks the user |
| MembershipTheorems.EraseExact | internal/adapter/redis/user.go:149-183 | erasing keeps identities and Twitch map inverse except for an identity with an empty Twitch id |
| MembershipTheorems.EmptyIdOutlivesUser | internal/adapter/redis/user.go:149-183 | a run in which the Twitch map still names an erased user |
| MembershipTheorems.LinkExact | internal/adapter/redis/user.go:60-121 | linking keeps them inverse exactly unless it replaces an empty stored id or takes an account from Telegram id 0 |
| MembershipTheorems.EmptyIdOutlivesLink | internal/adapter/redis/user.go:60-121 | a run in which replacing an empty stored id leaves the old entry of the Twitch map |
| MembershipTheorems.AccountOfZero | internal/adapter/redis/user.go:60-91 | a run in which an account of Telegram id 0 ends with two owners |
| MembershipTheorems.RefusalChangesNothing | internal/adapter/redis/user.go:60-67 | a link is refused exactly when the user has another account, and then nobody is displaced and nothing changes |
| MembershipTheorems.RunKeepsLinks | internal/adapter/redis/user.go:60-183 | over every run with real ids, identities and Twitch map are inverse and the users set is the linked users |
| MembershipTheorems.FirstSeenStays | internal/adapter/redis/untracked_membership.go:15-39 | over any series of observations a record keeps the first-seen time it had |
| MembershipTheorems.FirstSeenIsFirst | internal/adapter/redis/untracked_membership.go:15-39 | and a new one gets the time of the first observation whose second command was applied |
| MembershipTheorems.LinkDisplaces | internal/adapter/redis/user.go:94-121 | a successful link binds the account, leaves other identities alone, and leaves a displaced user without identity and, where the indexes agreed, without membership |
| MembershipTheorems.ErasedUserIsGone | internal/adapter/redis/user.go:149-183 | an erased user is out of identities, users set and reverse index, and out of every group the reverse index named |
| MembershipTheorems.BlankIsSound | internal/adapter/redis/tracked_membership.go:11-49 | the empty store satisfies all of these invariants |
| MembershipStore.Store.AddTrackedGroupMember | internal/adapter/redis/tracked_membership.go:11-36 | which of tracked set, untracked set, reverse set and record have changed after the first so many commands, and that nothing changes for any other member or group |
| MembershipStore.Store.RemoveTrackedGroupMember | internal/adapter/redis/tracked_membership.go:39-49 | likewise |
| MembershipStore.Store.UpsertUntrackedGroupMember | internal/adapter/redis/untracked_membership.go:15-39 | likewise, keeping the first time a member was seen |
| MembershipStore.Store.RemoveUntrackedGroupMember | internal/adapter/redis/untracked_membership.go:42-50 | likewise |
| MembershipStore.Store.DeleteManagedGroup | internal/adapter/redis/managed_group.go:267-300 | the group and its member sets go, it leaves the reverse set of each of its members, and nothing else changes |
| MembershipStore.Store.DeleteAllUntrackedMembershipsForUser | internal/adapter/redis/privacy.go:59-97 | the user leaves every managed group that has them recorded as untracked, or only some of them, the last one perhaps half, when a call fails |
| MembershipStore.Store.DeleteAllUserData | internal/adapter/redis/user.go:149-183 | the loop over the reverse set and the final transaction have the effect of erasing the user; a removal that fails leaves some of the removals, a transaction that fails all of them and nothing else, both steps of the theorems |
| MembershipStore.ErasureSpelledOut | internal/adapter/redis/user.go:149-183 | what an erasure takes, pair by pair: the user's links, reverse set, tracked membership and record in each group of the reverse set, untracked membership and record in each managed group observing them; everybody else keeps everything |
| MembershipStore.Store.PrepareTwitchLink | internal/adapter/redis/user.go:60-91 | refuses exactly a user with another non-empty account, and erases the account's present holder, if any and not id 0; an erasure that fails leaves the holder half erased |
| MembershipStore.Store.SaveUserIdentityOnly | internal/adapter/redis/user.go:94-121 | after preparing and the script the identity, users set and Twitch map are those before without the displaced holder and with the new link; a refusal changes nothing; a failing erasure or script leaves the holder half erased, or erased without a link |
| MembershipStore.Store.ScanForward | internal/adapter/redis/integrity.go:37-77 | the linked users and everyone tracked in a managed group, and for every user the managed groups tracking them |
| MembershipStore.Store.RepairBatch | internal/adapter/redis/integrity.go:97-183 | a batch rewrites exactly its own users' sets and counts its own differences |
| MembershipStore.Store.RepairTrackedGroupReverseIndex | internal/adapter/redis/integrity.go:17-94 | for any batch size every linked user and every user tracked in a managed group ends with exactly the managed groups tracking them, indexed users is the size of that set of users, missing and stale links are the sizes of the two differences, repaired users those that differed; a failed batch leaves earlier ones repaired |
| MembershipStore.RewritesIsRepaired | internal/adapter/redis/integrity.go:17-94 | what the method leaves is the repaired index of the theorems |
| MembershipStore.RepairedIsClean | internal/adapter/redis/integrity.go:17-183 | a second repair counts nothing and repairs nobody |
| MembershipStore.JoinBatches | internal/adapter/redis/integrity.go:82-92 | batches over disjoint users add up, in counts and in effect |
| PolicySweep.VerdictsExplained | internal/jobs/tasks.go:467-525 | a kick is exactly for a listed non-god, seen early enough, with a creator that loads, who has no Twitch id, or whose id is no subscriber or is blocked under blocklist sync; a rescue exactly for one whose id is a subscriber and not so blocked |
| PolicySweep.CleanExplained | internal/jobs/tasks.go:449-538 | a group is swept without errors exactly when its listing and each call its members need succeed, spelled out per member |
| PolicySweep.EffectIsLocal | internal/jobs/tasks.go:467-537 | one member's verdict moves that member in that chat, on both sides, in the reverse index and in the record, and moves nobody else |
| PolicySweep.RescueErasesRecord | internal/core/member_eligibility.go:110-137 | a rescued member, or a god, is tracked on both sides and keeps the record that tracking wrote exactly when the cleanup fails; a cleanup that succeeds deletes it |
| PolicySweep.EnteringAccounts | internal/jobs/tasks.go:500-537 | kicked, rescued and removed stay the numbers of kicks, rescues, and those of both whose cleanup succeeded |
| PolicySweep.Sweep.SweepMember | internal/jobs/tasks.go:467-537 | god, too recent, eligible, kicked or left alone, as this member's own calls decide, with the counts |
| PolicySweep.Sweep.SweepGroup | internal/jobs/tasks.go:449-538 | every listed member gets its own verdict whatever happens to the others; the creator is loaded once, when first needed |
| PolicySweep.GroupUntouched | internal/jobs/tasks.go:446-538 | a group not reached yet looks to the sweep as it did before the run |
| PolicySweep.Sweep.Run | internal/jobs/tasks.go:436-547 | over all groups and written in subscribers, bans, identities, policy and first-seen times: who is kicked and who is rescued, where every member ends, when the run is error-free, the counts, and that after an error-free run only members seen too recently are still listed, under the kick policy nobody |
| CleanupJob.ProcessJob | internal/jobs/tasks.go:656-716 | one pass, from the targets and the replies alone: the total falls by the gods below the limit, successes grow by the kicks that work, who is kicked how often, which targets remain in which order with one attempt more, and the status |
| CleanupJob.TargetsAreConserved | internal/jobs/tasks.go:656-716 | over all saved passes total = succeeded + given up + remaining, so the final failures are those given up |
| CleanupJob.TotalsExactly | internal/jobs/tasks.go:656-716 | over all saved passes the total falls by exactly the gods reached, successes grow by exactly the kicks that worked and never exceed the kicks made |
| CleanupJob.PassSpelledOut | internal/jobs/tasks.go:656-716 | the places of the targets tried again: exactly those below the limit that are no gods, whose kick fails and who have attempts left, in order |
| CleanupJob.KicksAreBounded | internal/jobs/tasks.go:574-716 | over any passes, saved or not, no member of a chat is kicked more often than the allowed attempts and the failed saves together |
| CleanupJob.KicksReachBound | internal/jobs/tasks.go:574-716 | for every number of attempts and of failed saves, some run kicks a member exactly that often |
| CleanupJob.KicksStayInBudget | internal/jobs/tasks.go:676-689 | kicks and remaining budget together never exceed the starting budget, for one member or for all |
| CleanupJob.JobEnds | internal/jobs/tasks.go:656-716 | N targets with at most A attempts end within floor(A*N/limit) + A passes whichever kicks fail |
| CleanupJob.JobEndsInProduction | internal/jobs/tasks.go:225-239 | with three attempts and fifty targets a pass: floor(3N/50) + 3 |
| CleanupJob.StatusTruthfulExactly | internal/jobs/tasks.go:695-702 | for targets with one number of attempts left: the final status says exhausted exactly when a target was given up, over every run, if and only if the job fits into one pass |
| CleanupJob.TruthfulWithinLimit | internal/jobs/tasks.go:656-716 | the positive half from any pending job within the limit |
| CleanupJob.EndsDoneRegardless | internal/jobs/tasks.go:656-716 | the negative half: from any pending job over the limit some run of passes ends as done although targets were given up |
| CleanupJob.StatusTruthfulInProduction | internal/jobs/tasks.go:225-239 | with the program's constants: exactly the jobs of at most fifty targets |
| CleanupJob.StatusForgetsFailures | internal/jobs/tasks.go:695-702 | an instance: two targets, one a pass, one given up, and the job ends as done |
| CleanupJob.CleanupTask.CreateMemberCleanupJob | internal/adapter/redis/member_cleanup.go:19-43 | a new pending job with all its targets, listed |
| CleanupJob.CleanupTask.ListPendingMemberCleanupJobs | internal/adapter/redis/member_cleanup.go:46-77 | exactly the jobs stored as pending, each once, although the index may hold more |
| CleanupJob.CleanupTask.SaveMemberCleanupJob | internal/adapter/redis/member_cleanup.go:123-141 | a save cut anywhere keeps every pending job listed |
| CleanupJob.CleanupTask.RunJob | internal/jobs/tasks.go:574-603 | one claimed job is advanced one pass if its save got through; a failed save keeps the lock |
| CleanupJob.CleanupTask.Run | internal/jobs/tasks.go:564-610 | each job is one pass further exactly when it was pending, not locked, claimed and saved, whatever happens to the others; which locks stay, and when the run is error-free |
| MemberTags.SanitizeSettles | internal/core/member_tag_sync.go:468-484 | a cleaned tag is trimmed, at most 16 runes and stays as it is; a tag is left alone exactly when it is already so, and becomes empty exactly when it is blank |
| MemberTags.SanitizeIs | internal/core/member_tag_sync.go:468-484 | the cleaned tag is a piece of the text: only white space before it, and after it only white space, or the cut at 16 runes |
| MemberTags.CleanedOnce | internal/core/member_tag_sync.go:468-484 | and only one text is such a piece |
| MemberTags.SanitizeMemberTag | internal/core/member_tag_sync.go:468-484 | the rune loop gives the text between the outer white space, or of a longer text its first 16 runes without trailing white space |
| MemberTags.DesiredTags | internal/core/member_tag_sync.go:287-310 | live untracked members get Untracked; live tracked members with an identity get the trimmed display name, or the login when that is blank; nobody else is desired |
| TagSync.TagStore.SetOwnedTag | internal/core/member_tag_sync.go:439-459 | one set: the owned tag afterwards and the outcome, for every reply and cut pipeline |
| TagSync.TagStore.ClearManagedTag | internal/core/member_tag_sync.go:119-138 | one clear: likewise; a user who is gone counts as cleared |
| TagSync.TagStore.SyncKnownMembers | internal/core/member_tag_sync.go:263-377 | in any iteration order each user's record ends as their own replies make it: cleaned tag after an accepted and saved set, nothing after a clear that is saved and accepted or for a user who is gone or has left; the four counts are the numbers of users with each outcome; the pass stops and the group is disabled exactly when some reply to a set or clear says the right to tag is lost |
| TagSync.OutcomesCoverUniverse | internal/core/member_tag_sync.go:263-377 | set, no-op, cleared and errors add up to all users; without errors set plus no-op is the number desired and cleared the number owned but not desired |
| TagSync.SettledExactly | internal/core/member_tag_sync.go:322-375 | a user whose calls succeed owns the cleaned tag exactly when it is not blank, or nothing when none is desired |
| TagSync.CleanPassReconciles | internal/core/member_tag_sync.go:263-377 | after an error-free pass over non-blank tags the owned tags are the cleaned desired ones, and a second pass is all no-ops exactly when every desired tag was clean |
| TagSync.HashesStayClean | internal/core/member_tag_sync.go:439-459 | stored tags are always cleaned ones |
| Callbacks.SplitOfJoin | internal/transport/telegram/bot/callbacks.go:102-106 | splitting joined words gives the words back |
| Callbacks.SplitShape | internal/transport/telegram/bot/callbacks.go:105-106 | joining split words gives the text back |
| Decimals.ParseOfFormat | internal/transport/telegram/bot/callbacks.go:91-95 | reading a printed number gives the number |
| Decimals.FormatOfParse | internal/transport/telegram/bot/callbacks.go:147-150 | printing a number that was read gives the text exactly when the text was canonical |
| CallbackTheorems.ParsedActionsExactly | internal/transport/telegram/bot/callbacks.go:105-317 | the actions some text parses to are exactly the meanings of the forms of the grammar, and each parses back from its form's words |
| CallbackTheorems.ButtonRoundTrip | internal/transport/telegram/bot/callbacks.go:396-520 | parsing a builder's text gives back the fields it was built from exactly when its numbers are valid |
| CallbackTheorems.ButtonsAreInjective | internal/transport/telegram/bot/callbacks.go:396-520 | different buttons never carry the same text |
| CallbackTexts.ButtonTexts | internal/transport/telegram/bot/callbacks.go:396-520 | the text of every button, word by word |
| CallbackTexts.DomainsAndVerbs | internal/transport/telegram/bot/callbacks.go:11-33 | the words of domains and verbs |
| CallbackTexts.Targets | internal/transport/telegram/bot/callbacks.go:396-520 | the words of targets |
| CallbackTexts.Settings | internal/transport/telegram/bot/callbacks.go:35-48 | the words of policies, languages, graces, toggles, reset actions, origins and scopes |
| CallbackTexts.PrintsDecimal | internal/transport/telegram/bot/callbacks.go:91-95 | numbers are printed digit by digit in base ten with a minus in front of negative ones |
| CallbackTheorems.PrintOfParseExact | internal/transport/telegram/bot/callbacks.go:67-317 | printing a parsed action gives the text back exactly when numbers and language were canonical and it is not the unregistration with an action |
| CallbackTheorems.HandWrittenDiffers | internal/transport/telegram/bot/callbacks.go:456-464 | the hand-written form never prints to itself |
| RateLimiters.ChatLimiter.ReserveChatDelay | internal/platform/ratelimit/rate_limiter.go:91-115 | for every clock, also one read before the lock and so out of order, the delay is the one the pruned table of the whole history gives; with what is pruned, when, and what the table holds next |
| RateLimiters.TableExact | internal/platform/ratelimit/rate_limiter.go:98-105 | after any history the table holds each chat's last slot unless a later call pruned beyond it |
| RateLimiters.SlotsAreApart | internal/platform/ratelimit/rate_limiter.go:107-114 | slots of one chat are at least the interval apart |
| RateLimiters.SlotsAreEarliest | internal/platform/ratelimit/rate_limiter.go:107-114 | no schedule that serves each chat in order and spaced gives any call an earlier slot |
| RateLimiters.PruningIsSeenExactly | internal/platform/ratelimit/rate_limiter.go:98-114 | for any history, a call is given another slot than its chat's last one calls for exactly when its clock is behind that slot's end and the table was pruned beyond it since |
| RateLimiters.LikeUnprunedExactly | internal/platform/ratelimit/rate_limiter.go:91-115 | every delay of a history is that of a map never pruned exactly when no call was so overtaken |
| RateLimiters.PruningIsSafe | internal/platform/ratelimit/rate_limiter.go:91-115 | which is so for every history whose clock does not run back in lock order |
| RateLimiters.OvertakenCall | internal/platform/ratelimit/rate_limiter.go:91-115 | a history of more than a thousand chats after which a call that read its clock early is sent at once instead of after the interval |
| RateLimiters.FixedWindowLimiter.Allow | internal/transport/http/handlers/http_middleware.go:72-93 | admission exactly when fewer than each limit of the earlier requests were admitted in the current window, in all and from that address; a new window begins once the width has passed |
| RateLimiters.TwiceTheLimit | internal/transport/http/handlers/http_middleware.go:72-93 | of the requests in any span of one window's width at most twice each limit are admitted, in all and from each address |
| RateLimiters.TwiceIsReached | internal/transport/http/handlers/http_middleware.go:72-93 | for all limits and every width of at least two, the limiter admits twice the smaller limit within one width, from one address |

## Left out

- Encodings: gzip, base64, JSON, DUMP/RESTORE payloads and object storage are the identity on values; TTLs and key expiry are dropped.
- A command that Redis applied although the client saw an error, external writers, and several instances on one Redis: the program assumes one instance (`internal/adapter/redis/readcache.go:17-21`).
- Two backups uploaded under the same object key, a clash of two runs within one second; object names are distinct here.
- Restoring into an instance that is serving writes, and interrupting a restore.
- Malformed ids and hashes: the code logs and skips them; ids are integers or texts here.
- Iteration and sorting order of SMEMBERS, SSCAN and Go maps: loops take elements in any order, which every statement about them allows.
- EntityIndex.Adapter.UpdateManagedGroupMemberTagSyncEnabled: does not model the call on a group without a hash inside the class, because `TagSyncKeepsIndexes` already says that it breaks the id set.
- Delivery order of live events: events reach the handler in the order of the upstream changes and one at a time; with handlers in parallel or reordered webhooks the code promises nothing.
- DumpJournal.DumpStore.FinalizeDump: does not interleave events with its own commands; `DumpConvergence` has the rename, the take and the replay as steps of their own.
- Two links for the same account at the same time: linking is one step, and so is deleting a group or a user, except that erasing a user may stop early, on its own or in front of a link. A deletion that races with an upsert of the same group or creator is not modelled either.
- TagSync.TagStore.DisableMemberTagSync: does not fail; a store error while disabling leaves the group enabled or its tags listed.
- Lock expiry of cleanup jobs: a lock kept after a failed save makes later runs skip the job until it expires, and expiry is not a step.
- CallbackTheorems.ButtonRoundTrip: ranges over the declared policies, languages, scopes and so on; Go strings outside those constants are not buttons here. The language normaliser is any function that keeps the supported codes.
- Runes outside Unicode text: a tag with invalid UTF-8 is not modelled.
- The limiter's global ticker, blocklist enforcement after a ban dump, the subscription-end grace job, the use-case wrappers, views, OAuth, HTTP wiring, metrics and event emission: they add only easy members.
