# AnyStore metadata store: model and proofs

AnyStore keeps a tree of folders and files in a transactional metadata store.
Every mutation commits an object change, its Change records, its blob
queue entries and its idempotency record together, while other transactions
run beside it. This project models that store in Dafny and proves what it keeps
in every run and every interleaving.

`dafny verify dfyconfig.toml` checks the whole project.

## How the model is organised

| modules | what they hold |
|---|---|
| `Types`, `Tree` | Rows and the folder tree: parent chains, the visited-guarded ancestor walk, rootedness, subtree listings |
| `Store`, `TreeInvariants`, `StoreInvariants`, `StoreTheorems` | The store as one atomic state: what each of the four mutations accepts and writes, the upload and blob-queue operations, the invariant of every run and its consequences |
| `Effects` | What each mutation and each session or queue operation finds and writes, stated on the fields of rows, records, sessions and queue entries alone |
| `Protocol`, `Interference`, `ProtocolInvariants`, `ProtocolTheorems` | The PostgreSQL transactions statement by statement, with row, key and Change-order locks; every interleaving refines the atomic store; the Change-order lock never waits in a circle |
| `Ids`, `Feed`, `FeedTheorems`, `FeedEffects`, `FeedStore`, `FeedRefinement` | The Changes feed: materialised cursors, watermark, purge, followers, change id order, and its link to the transaction protocol |
| `Idempotency`, `IdempotencyTheorems` | Idempotency records: leases, takeover, finalisation, release, crash, purge |
| `ExactlyOnce` | Transactions and idempotency records together: a keyed request changes the store at most once |
| `Completions` | Which content record belongs to which completed upload, in every run |
| `Worklist`, `MetaStore` | The in-memory adapter as a class, updated in place, each method tied to the atomic store; the recursive-delete worklist |
| `Environment`, `Uploads` | The upload workflow on top of that class, with other clients' steps between its calls |
| `Maintenance` | The maintenance pass on top of that class, the record table and the feed |
| `Metadata`, `Paths`, `PathTheorems` | Metadata patches; path splitting, rendering and resolving |
| `Reachable` | The main results about paths, blobs, moves, deletes and the feed, restated for every state of every interleaving of transactions |
| `Canonical`, `Paging` | The canonical request encoding; keyset paging |

Modelling choices. Object and upload ids are naturals: they are opaque, fresh
and ordered, and the root folder is id zero. Text is its UTF-8 byte sequence,
times are integers, and metadata values are opaque. A blob key is an injective
function of its upload id. A file's content state `ready` and its blob pointer
are written together and are one optional blob. READ COMMITTED is modelled by
its facts: a statement sees the committed rows plus its own writes, a locking
read waits for a compatible lock and then sees the newest row, locks last to
the end of the transaction, and a rollback undoes rows but not sequence
numbers. Every error return, lock timeout and crash of a transaction is a
rollback step, enabled at any point.

Where the in-memory adapter takes shortcuts that PostgreSQL does not take (walks cut at
1024 steps, no upload/blob match check, an idempotency record finalised after
the mutation), the model follows PostgreSQL.

None of the properties below was found false of the code. A listing does not
promise that a row is returned once when its sort key moves during the
traversal, and `Paging.MovedRowReturnsAgain` gives an input where it is
returned twice.

## Model

| member | source | states |
|---|---|---|
| Tree.IsSelfOrDescendant | crates/anystore-metastore-postgres/src/objects_write.rs:718-741 | The ancestor query as a walk with a visited set; it terminates on every parent map. Its meaning is Tree.AncestorWalkExact |
| Tree.AncestorWalkExact | cloudbase/migrations/20261024120000_bound_tree_walks_and_lock_waits.sql:44-59 | On every parent map, cyclic or not, the walk answers exactly whether the subject is reached from the candidate by parent steps |
| Tree.RootedIsAcyclic | crates/anystore-metastore-postgres/src/objects_write.rs:343-399 | When every chain ends at the root, no object is its own proper ancestor |
| Tree.PlacementKeepsRooted | crates/anystore-metastore-postgres/src/objects_write.rs:343-399 | Re-hanging an object under a destination that is not beneath it keeps every chain ending at the root |
| Tree.ListingHasNoRepeats | crates/anystore-metastore-postgres/src/objects_write.rs:743-753 | A deepest-first subtree listing names each live descendant once |
| Tree.ListingChildFirst | crates/anystore-metastore-postgres/src/objects_write.rs:743-753 | In such a listing every child comes before its parent |
| TreeInvariants.OwnWriteInvisible | crates/anystore-metastore-postgres/src/objects_write.rs:385-399 | The ancestor check gives the same answer with and without the mover's own uncommitted row, so the re-check decides about the committed tree |
| TreeInvariants.PatchKeepsTree | crates/anystore-metastore-postgres/src/objects_write.rs:287-434 | An accepted patch, folder move included, keeps chains rooted, parents live folders |
| TreeInvariants.DeleteKeepsTree | crates/anystore-metastore-postgres/src/objects_write.rs:473-529 | Tombstoning a complete listing leaves no live object under a deleted one |
| Store.ApplyPatch | crates/anystore-domain/src/metadata.rs:62-83 | A metadata patch as a function of the current document; its meaning is Metadata.PatchMeaning |
| StoreInvariants.FoldPatch | crates/anystore-metastore-postgres/src/objects_write.rs:401-434 | The one to three records of a patch share one new revision, come as renamed, moved, metadata updated, and take an object's folded history from the old revision to the new one |
| StoreInvariants.FoldTombstones | crates/anystore-metastore-postgres/src/objects_write.rs:507-529 | A delete's records end the history of exactly the listed objects |
| StoreTheorems.MutationKeepsInv | crates/anystore-metastore-postgres/src/objects_write.rs:215-711 | Every accepted mutation keeps the whole store invariant: tree, names, log, blobs, completion count, increasing sequence numbers |
| StoreTheorems.SideKeepsInv | crates/anystore-metastore-postgres/src/uploads.rs:23-135 | Opening, advancing, aborting, expiring sessions and claiming, finishing, backing off queue entries keep the store invariant |
| StoreTheorems.RunInv | crates/anystore-testkit/src/metastore.rs:487-942 | Every state of every run satisfies the store invariant |
| StoreTheorems.BlobClasses | crates/anystore-metastore-postgres/src/objects_write.rs:644-675 | Each session's blob is in exactly one class: pending, current pointer of one live object, or retired and then queued or collected |
| StoreTheorems.LiveBlobsAreSafe | crates/anystore-metastore-postgres/src/maintenance.rs:20-64 | A blob a live object points at is not queued, not claimed and not collected, and has one owner |
| StoreTheorems.ClaimedNeverLive | crates/anystore-metastore-postgres/src/maintenance.rs:20-64 | Once claimed for collection, a blob is never again a live object's content |
| StoreTheorems.RetriedCompletionIsInert | crates/anystore-metastore-postgres/src/objects_write.rs:593-607 | Committing the content of an already completed session changes nothing |
| Completions.CompletionBijection | crates/anystore-metastore-postgres/src/objects_write.rs:546-708 | In every state of every run the completed sessions correspond one to one to the content records, each of the session's own object, and an object's blob is that of its latest completed session |
| Completions.LedgerGrows | crates/anystore-metastore-postgres/src/objects_write.rs:546-708 | From any state on, completed sessions keep their records and new completions get records of their own |
| Completions.EndedNeverCompletes | crates/anystore-metastore-postgres/src/uploads.rs:75-135 | A session once aborted or expired never completes |
| StoreTheorems.CompletedUntouched | crates/anystore-metastore-postgres/src/uploads.rs:75-135 | Session and queue operations complete nothing, undo no completion, and change no object and no record |
| StoreTheorems.LogDeterminesStore | crates/anystore-metastore-postgres/src/objects_write.rs:102-167 | Two stores with the same log agree on each object's revision, liveness and content state |
| StoreTheorems.RecordsShape | crates/anystore-metastore-postgres/src/objects_write.rs:401-434 | Of two records of one object, nothing follows a tombstone, revisions do not go back, a shared revision appears only in patch order, and content becomes ready at most once, before any replacement |
| StoreTheorems.ReplacementNeedsReady | crates/anystore-metastore-postgres/src/objects_write.rs:677-688 | Every content replaced record has an earlier content ready record of the same object |
| StoreTheorems.RevisionsStepByOne | crates/anystore-metastore-postgres/src/objects_write.rs:259-270 | Consecutive records of one object raise the revision by at most one; a non-root object starts with created at 1, the root's first record is revision 2 |
| StoreTheorems.DeleteTombstonesSubtree | crates/anystore-metastore-postgres/src/objects_write.rs:473-529 | An accepted delete tombstones its listing and appends one deleted record per member, in listing order, at its revision plus one |
| StoreTheorems.DeleteRemovesExactly | crates/anystore-metastore-postgres/src/objects_write.rs:473-529 | What was live and is so no longer is exactly the live subtree of the target |
| StoreTheorems.TombstonesChildFirst | crates/anystore-metastore-postgres/src/objects_write.rs:507-529 | A delete's records name every member once, at its next revision, and every child before its parent |
| Tree.ListingOrder | crates/anystore-metastore-postgres/src/objects_write.rs:743-753 | A subtree listing is ordered by depth, deepest first, and by id within a depth |
| Effects.CreateEffect | crates/anystore-metastore-postgres/src/objects_write.rs:215-285 | A create finds a live parent folder without a live child of that name, and writes one new row with exactly the given fields at revision 1, and one created record |
| Effects.PatchEffect | crates/anystore-metastore-postgres/src/objects_write.rs:287-434 | A patch finds a live object at the expected revision; each of name, parent and metadata is the one asked for or the old one, nothing else changes but the revision, which rises by one exactly when a field differs; a record of each kind is appended exactly when its field differs |
| Effects.DeleteEffect | crates/anystore-metastore-postgres/src/objects_write.rs:455-529 | A delete finds a live non-root object at the expected revision, without live children unless recursive; exactly the live subtree is tombstoned with one record each, and exactly its blobs are queued, due at once, without touching queued entries |
| Effects.CommitEffect | crates/anystore-metastore-postgres/src/objects_write.rs:546-708 | A content commit finds a matching session and a live file at the expected revision; it moves the pointer, closes the session, appends one record, queues the superseded blob for the given time and takes the new one off the queue, or does nothing for a completed session |
| Effects.MutationWrites | crates/anystore-metastore-postgres/src/objects_write.rs:76-167 | Every accepted mutation has its effect and nothing else, and its records carry its time and consecutive sequence numbers |
| Effects.MatchedRevision | crates/anystore-metastore-postgres/src/objects_write.rs:66-74 | A mutation sent with a revision takes effect only on that revision |
| Effects.SideOpWrites | crates/anystore-metastore-postgres/src/maintenance.rs:20-147 | What each session and queue operation finds and writes, with its times: expiry queues blobs due at once, a claim hides due entries of non-live blobs for five minutes, a failure counts an attempt |
| Interference.StableListing | crates/anystore-metastore-postgres/src/objects_write.rs:770-799 | While a deleter holds its whole listing locked, no commit by others changes what lies beneath the target |
| ProtocolInvariants.CheckedChildren | crates/anystore-metastore-postgres/src/objects_write.rs:473-492 | A plain delete that found no live child has a one-row listing it holds locked |
| ProtocolInvariants.RecheckSeesCommitted | crates/anystore-metastore-postgres/src/objects_write.rs:385-399 | The re-check under the Change-order lock answers as the committed rows would |
| ProtocolInvariants.PatchStep | crates/anystore-metastore-postgres/src/objects_write.rs:287-399 | Each statement of a patch establishes the facts the next one relies on |
| ProtocolInvariants.DeleteStep | crates/anystore-metastore-postgres/src/objects_write.rs:455-529 | Each statement of a delete establishes the facts the next one relies on, including the derive, lock, re-derive loop, which stops when two derivations return the same ids |
| ProtocolInvariants.SameIdsSameLocks | crates/anystore-metastore-postgres/src/objects_write.rs:776-795 | Two derivations that return the same ids, at whatever depths, stand for the same locked rows |
| ProtocolTheorems.FinishedAccepts | crates/anystore-metastore-postgres/src/objects_write.rs:192-207 | A transaction ready to commit satisfies, on the store as it is then, every check of the atomic mutation, and has written exactly its write set |
| ProtocolTheorems.CommitMutates | crates/anystore-metastore-postgres/src/objects_write.rs:192-207 | A commit is the atomic mutation of its own command on the current store |
| ProtocolTheorems.CommitKeepsOther | crates/anystore-metastore-postgres/src/objects_write.rs:42-58 | A commit keeps everything every other open transaction has established |
| ProtocolTheorems.StepKeepsDbInv | crates/anystore-metastore-postgres/src/objects_write.rs:85-207 | Every step of every transaction keeps the protocol invariant |
| ProtocolTheorems.StepRefinesStore | crates/anystore-metastore-postgres/src/objects_write.rs:215-711 | Seen through committed rows, every step of every interleaving is one atomic step of the store |
| ProtocolTheorems.ExecutionInv | crates/anystore-metastore-postgres/src/objects_write.rs:215-711 | Every state of every interleaving of any number of transactions satisfies the protocol and store invariants |
| ProtocolTheorems.CommittedTreeSound | crates/anystore-metastore-postgres/src/objects_write.rs:343-492 | In every interleaving every committed live non-root object has a live folder as parent, its chain ends at the root, and the parent map is acyclic |
| ProtocolTheorems.CommitAppendsAbove | crates/anystore-metastore-postgres/src/objects_write.rs:85-167 | Commits only append to the log, and only above everything committed before, although numbers are allocated earlier and rollbacks lose some |
| ProtocolTheorems.HolderWaitsShortly | crates/anystore-metastore-postgres/src/objects_write.rs:85-95 | Whoever holds the Change-order lock waits at most for one idempotency row, whose holder waits for nothing |
| ProtocolTheorems.HolderNeverWaitsForWaiter | crates/anystore-metastore-postgres/src/objects_write.rs:85-95 | In every reachable state no chain of waiting leads from the holder of the Change-order lock to a transaction waiting for that lock |
| Ids.ChangeIdOrder | crates/anystore-domain/src/ids.rs:95-97 | Change ids compare as text exactly as their sequence numbers compare, for every non-negative i64 |
| Ids.ChangeIdShape | crates/anystore-domain/src/ids.rs:95-97 | A change id is the prefix and twenty digits that spell the sequence number |
| FeedTheorems.PageComplete | crates/anystore-metastore-postgres/src/changes.rs:63-112 | If the watermark is not above the start, a page holds every committed Change between the start and its end, in order, and says `has_more` exactly when something committed lies beyond that end |
| FeedTheorems.SnapshotBoundsPage | crates/anystore-metastore-postgres/src/changes.rs:63-112 | A page read up to a recorded snapshot is the same after any later appends |
| FeedTheorems.HistoryInv | crates/anystore-metastore-postgres/src/changes.rs:144-262 | Every state of every history of appends, reads and purges satisfies the feed and follower invariants |
| FeedTheorems.FollowerExact | crates/anystore-metastore-postgres/src/changes.rs:144-262 | A follower chaining next cursors has received every committed Change above its start and up to its cursor exactly once, in commit order and in increasing change id order |
| FeedTheorems.NothingBehindCursor | crates/anystore-metastore-postgres/src/objects_write.rs:85-167 | No Change ever commits at or behind a cursor's position |
| FeedTheorems.RereadIsStable | crates/anystore-metastore-postgres/src/changes.rs:181-255 | A cursor read again with the same limit, after any appends and purges, gives the same items, continuation and `has_more`, or is rejected as expired |
| FeedTheorems.PurgeKeepsInv | crates/anystore-metastore-postgres/src/maintenance.rs:167-199 | Purging by age, which need not remove a prefix, keeps every surviving row and the watermark consistent |
| FeedEffects.ReadHasOutcome | crates/anystore-metastore-postgres/src/changes.rs:144-262 | Every read answers and writes what its cursor calls for, stated on rows and positions |
| FeedEffects.BuildDelivers | crates/anystore-metastore-postgres/src/changes.rs:63-112 | A page holds, in order and without gaps, as many Changes after its position as there are up to the limit |
| FeedEffects.MoreMeansProgress | crates/anystore-metastore-postgres/src/changes.rs:74-112 | With a positive limit, a page that says there is more is full and its continuation is strictly further on |
| FeedEffects.PurgeHasOutcome | crates/anystore-metastore-postgres/src/maintenance.rs:167-199 | Exactly the Changes recorded before the bound are gone |
| FeedEffects.CursorPurgeHasOutcome | crates/anystore-metastore-postgres/src/maintenance.rs:158-165 | Exactly the cursors whose time is up are gone |
| FeedEffects.FollowerCatchesUp | crates/anystore-metastore-postgres/src/changes.rs:144-262 | With nothing appended, every read of a follower shortens what it has left to receive until nothing is left |
| FeedEffects.CaughtUpHoldsAll | crates/anystore-metastore-postgres/src/changes.rs:144-262 | After as many reads as Changes were left, a follower holds everything committed above its start |
| FeedStore.ChangeStore.AppendChanges | crates/anystore-metastore-postgres/src/objects_write.rs:102-167 | Appends a batch to the retained Changes and to the full log |
| FeedStore.ChangeStore.CreateCursor | crates/anystore-metastore-postgres/src/changes.rs:114-133 | Stores a cursor at a position under an id never issued before, and touches no other cursor |
| FeedStore.ChangeStore.ReadChanges | crates/anystore-metastore-postgres/src/changes.rs:144-262 | Answers by its cursor: unknown, expired or overtaken ones are rejected; a first read delivers in order as many Changes after its position as there are up to the limit, says exactly whether more is committed, counts what remains, and stores the page; a later read gives the stored page |
| FeedStore.ChangeStore.PurgeChanges | crates/anystore-metastore-postgres/src/maintenance.rs:167-199 | Exactly the Changes older than the bound go and are counted, the rest stay in order, and the watermark rises to the highest dropped number if that is higher |
| FeedStore.ChangeStore.PurgeChangeCursors | crates/anystore-metastore-postgres/src/maintenance.rs:158-165 | Exactly the cursors whose time is up go and are counted; the others stay as they are |
| FeedRefinement.CommitIsFeedAppend | crates/anystore-metastore-postgres/src/objects_write.rs:102-167 | A commit of the transaction protocol appends its records to the log above every committed sequence number |
| FeedRefinement.FeedFollowsCommits | crates/anystore-metastore-postgres/src/objects_write.rs:102-167 | A feed that appends each commit's records mirrors the committed log and keeps the feed invariant |
| Idempotency.IdempotencyStore.AcquireKey | crates/anystore-testkit/src/metastore.rs:944-993 | An absent key is claimed with this token, hash and lease; another hash is a conflict; a completed record is replayed; a running lease must be waited for; a lease that has run out is taken over, changing only owner and lease |
| Idempotency.AcquireHasOutcome | crates/anystore-metastore-postgres/src/idempotency.rs:157-225 | Acquire as one step answers and writes what the record it finds calls for, stated on the record's fields |
| Idempotency.IdempotencyStore.Complete | crates/anystore-metastore-postgres/src/idempotency.rs:107-140 | Stores response and expiry only for the current owner of a record in progress, keeping hash and resource token |
| Idempotency.IdempotencyStore.FailOrRelease | crates/anystore-metastore-postgres/src/idempotency.rs:239-254 | Removes the record only for its current owner while in progress |
| Idempotency.IdempotencyStore.Purge | crates/anystore-metastore-postgres/src/maintenance.rs:149-156 | Exactly the records whose time is up go and are counted |
| IdempotencyTheorems.RunInv | crates/anystore-metastore-postgres/src/idempotency.rs:26-64 | Every state of every run of acquires, takeovers, finalisations, commits, rollbacks, crashes, releases and purges satisfies the table invariant |
| IdempotencyTheorems.AtMostOneCommit | crates/anystore-metastore-postgres/src/idempotency.rs:107-140 | While a key's record is retained, at most one mutation commits for it |
| IdempotencyTheorems.SameResponse | crates/anystore-application/src/idempotency.rs:60-122 | While the record is retained, every success for the key, commit or replay, carries the same hash and response |
| IdempotencyTheorems.ReplayHasCommit | crates/anystore-metastore-postgres/src/idempotency.rs:157-225 | Every replayed response was committed earlier for that key and hash, and the record was not removed in between |
| IdempotencyTheorems.OwnersDeriveSameId | crates/anystore-application/src/idempotency.rs:38-89 | All owners during one retained record's life get the same resource token and derive the same upload id |
| IdempotencyTheorems.DerivedIdsDiffer | crates/anystore-application/src/idempotency.rs:38-53 | Only the same key, hash and resource token derive the same id |
| IdempotencyTheorems.LeaseRespected | crates/anystore-metastore-postgres/src/idempotency.rs:43-49 | An owner is followed by another one only when its lease has run out, unless the record was removed in between |
| ExactlyOnce.HistoryInv | crates/anystore-metastore-postgres/src/objects_write.rs:192-207 | In every history of transactions and record steps, an open keyed transaction belongs to a live attempt on its key and has finalised the record exactly when the attempt has |
| ExactlyOnce.KeyedCommitIsAtomic | crates/anystore-metastore-postgres/src/objects_write.rs:192-207 | A keyed commit applies its atomic mutation and completes its own record, with the response and expiry it finalised, in one step, and touches no other record |
| ExactlyOnce.AtMostOneMutation | crates/anystore-metastore-postgres/src/idempotency.rs:107-140 | Between two commits under one key that key's record was removed: while it is retained at most one mutation commits for it |
| ExactlyOnce.CompletedWasCommitted | crates/anystore-metastore-postgres/src/idempotency.rs:51-64 | A completed record has a commit under its key behind it, with no removal since |
| ExactlyOnce.ReplayAnswersCommit | crates/anystore-application/src/idempotency.rs:60-122 | A replay answers with the hash and response stored by the commit that changed the store |
| ExactlyOnce.HistoryIsRun | crates/anystore-metastore-postgres/src/objects_write.rs:215-711 | The committed stores of such a history form a run of the atomic store |
| Worklist.Descendants | crates/anystore-testkit/src/metastore.rs:217-234 | The worklist loop terminates on the tree invariant and returns the deepest-first listing of exactly the live subtree |
| Worklist.SortCorrect | crates/anystore-testkit/src/metastore.rs:217-234 | The sort keeps the elements and orders deepest first |
| Worklist.AllSeen | crates/anystore-testkit/src/metastore.rs:217-234 | When the frontier is empty every live descendant has been seen |
| MetaStore.InMemoryMetaStore.CreateObject | crates/anystore-metastore-postgres/src/objects_write.rs:215-285 | Success writes exactly the given row and record; otherwise the store is unchanged, with the missing parent, file parent or taken name error exactly when it applies |
| MetaStore.InMemoryMetaStore.PatchObject | crates/anystore-testkit/src/metastore.rs:552-681 | Success exactly when the atomic patch accepts, and then the field-by-field effect of a patch; otherwise the store is unchanged and the error states its own reason; a live target at another revision is always a revision conflict |
| MetaStore.InMemoryMetaStore.DeleteObject | crates/anystore-testkit/src/metastore.rs:683-752 | Success has the field-by-field effect of a delete of the worklist's listing; otherwise the store is unchanged and the error states its own reason; a live target at another revision is always a revision conflict |
| MetaStore.InMemoryMetaStore.CommitContent | crates/anystore-metastore-postgres/src/objects_write.rs:546-711 | Success exactly when the atomic content commit accepts, and then its field-by-field effect; otherwise the store is unchanged and the error states its own reason; another revision is never accepted |
| MetaStore.InMemoryMetaStore.CreateUploadRecord | crates/anystore-metastore-postgres/src/uploads.rs:23-62 | Inserts a session unless one with that id exists, which is then returned as it is |
| MetaStore.InMemoryMetaStore.UpdateUploadState | crates/anystore-metastore-postgres/src/uploads.rs:75-99 | Takes exactly the guarded transitions to ready and to completing, and changes nothing otherwise |
| MetaStore.InMemoryMetaStore.AbortUploadRecord | crates/anystore-metastore-postgres/src/uploads.rs:101-135 | Aborts and queues the blob unless the session is completed or unknown |
| MetaStore.InMemoryMetaStore.ClaimExpiredUploads | crates/anystore-metastore-postgres/src/maintenance.rs:97-147 | Expires up to the limit of the sessions not yet ended whose time is up, all of them if fewer, and queues their blobs due at once |
| MetaStore.InMemoryMetaStore.ClaimGcBatch | crates/anystore-metastore-postgres/src/maintenance.rs:20-64 | Leases up to the limit of the due entries, all of them if fewer, none of them live, for five minutes |
| MetaStore.InMemoryMetaStore.FinishCollection | crates/anystore-metastore-postgres/src/maintenance.rs:66-74 | Removes the collected entry from the queue |
| MetaStore.InMemoryMetaStore.FailCollection | crates/anystore-metastore-postgres/src/maintenance.rs:76-95 | Raises the attempts and moves the entry to its retry time |
| MetaStore.AllDueCollectable | crates/anystore-metastore-postgres/src/maintenance.rs:20-64 | In every reachable state the claim's guard against live blobs filters out no due entry |
| Uploads.UploadService.Create | crates/anystore-application/src/uploads.rs:81-217 | With other clients at work between its calls, it writes nothing but the one row of the session, if absent, and its mark as ready; it fails only for a missing object, a folder, a session that has moved on, or a provider that did not prepare |
| Uploads.UploadService.Complete | crates/anystore-application/src/uploads.rs:284-418 | With other clients at work between its calls, success is a commit, on the revision asked for, that publishes the content once or finds the session completed; it fails only for a stated reason that holds at the time, and then at most marks the session as completing |
| Uploads.UploadService.Abort | crates/anystore-application/src/uploads.rs:426-472 | With other clients at work between its calls, it ends an uncompleted session and queues its blob, leaves a completed one alone, and fails only for an unknown id |
| Uploads.SecondSuccessIsInert | crates/anystore-application/src/uploads.rs:326-352 | After one successful completion, however the store evolves, another success changes nothing |
| Uploads.PublishedOnRevision | crates/anystore-application/src/uploads.rs:313-320 | A completion that publishes found the live file at the revision it was sent with |
| Environment.EvolvesPersists | crates/anystore-metastore-postgres/src/uploads.rs:75-135 | Whatever other clients do, no object or session row disappears, sessions keep object and blob, closed ones stay closed, and the log only grows |
| Maintenance.Backoff | crates/anystore-application/src/maintenance.rs:172-184 | The retry delay lies between one minute and 1024 minutes; Maintenance.BackoffDoubles gives it exactly |
| Maintenance.BackoffDoubles | crates/anystore-application/src/maintenance.rs:172-184 | The delay starts at a minute and doubles with every attempt, ten times at most |
| Maintenance.MaintenanceService.AbortExpiredUploads | crates/anystore-application/src/maintenance.rs:121-145 | One batch expires what it reports and makes as many queue entries due; a short batch leaves no due session |
| Maintenance.MaintenanceService.CollectBlobs | crates/anystore-application/src/maintenance.rs:147-189 | The reported counts are exact; a removed blob is collected and off the queue, a failed one is backed off by its attempts and counted, one without a backend stays leased for five minutes; a short batch leaves none due |
| Maintenance.MaintenanceService.CollectAll | crates/anystore-application/src/maintenance.rs:93-103 | The collection loop handles no entry twice and ends with nothing due unless the deadline passed |
| Maintenance.ExpiryAddsDue | crates/anystore-metastore-postgres/src/maintenance.rs:97-147 | Each expired session makes exactly one more entry due, because its blob was not queued before |
| Maintenance.HandledJoin | crates/anystore-application/src/maintenance.rs:147-189 | Handling a further batch leaves every entry handled before as it is, handles the new ones as they were found at the start, and the counts add up |
| Maintenance.MaintenanceService.Run | crates/anystore-application/src/maintenance.rs:67-119 | A pass terminates even without a deadline; drained means nothing due at now is left; each handled entry is handled once and as its outcome says, and counted; exactly the expired records, expired cursors and Changes past retention go, and are counted; a second pass beside a running one does nothing |
| Metadata.ApplyMetadataPatch | crates/anystore-domain/src/metadata.rs:62-83 | The two loops compute the patch function |
| Metadata.PatchMeaning | crates/anystore-domain/src/metadata.rs:59-83 | Which keys the patched document has, and with which values: removal wins over setting, setting over the old value |
| Metadata.PatchChangesNothing | crates/anystore-domain/src/metadata.rs:85-88 | Exactly which patches are no-ops: removed keys are absent, and every key that is set and not removed already has its value |
| Paths.SplitPath | crates/anystore-domain/src/path.rs:13-37 | Returns the non-empty segments of an absolute path, each a valid name, and an invalid-request error for every other text, relative text and NUL included |
| Paths.RenderPath | crates/anystore-domain/src/path.rs:40-50 | Renders the segments, `/` for none |
| Paths.SplitRender | crates/anystore-domain/src/path.rs:13-50 | Splitting a rendered list of valid names gives it back |
| Paths.RenderNormalises | crates/anystore-domain/src/path.rs:25-50 | Rendering a split path is a normal form: it splits the same way |
| Paths.PiecesAreCuts | crates/anystore-domain/src/path.rs:26-26 | The pieces are the text cut at every separator |
| Paths.ExtraSeparators | crates/anystore-domain/src/path.rs:26-30 | Repeated separators and one at the end change nothing |
| PathTheorems.PathIsRender | crates/anystore-metastore-postgres/src/rows.rs:92-111 | In every reachable tree the path query's guarded walk renders the names from the root |
| PathTheorems.ResolveRendered | crates/anystore-metastore-postgres/src/objects_read.rs:23-36 | Resolving a live object's rendered path returns that object |
| PathTheorems.RenderedIsNormal | crates/anystore-metastore-postgres/src/objects_read.rs:23-36 | Any path that resolves to an object normalises to its rendered path |
| PathTheorems.PathsAreUnique | crates/anystore-metastore-postgres/src/rows.rs:92-111 | Distinct live objects have distinct paths |
| PathTheorems.MoveReplacesPrefix | crates/anystore-metastore-postgres/src/rows.rs:87-91 | Rewriting a folder's row replaces the prefix of its descendants' paths and keeps the text after it |
| PathTheorems.MoveLeavesOthers | crates/anystore-metastore-postgres/src/rows.rs:87-91 | Objects not beneath the rewritten row keep their paths |
| PathTheorems.PatchMovesWholeSubtree | crates/anystore-metastore-postgres/src/objects_write.rs:287-434 | A committed patch changes no other row, and changes exactly the prefix of the paths at and beneath its object |
| Reachable.RenderThenResolve | crates/anystore-metastore-postgres/src/objects_read.rs:23-36 | In every state of every interleaving, resolving a live object's rendered path returns it |
| Reachable.ResolveThenRender | crates/anystore-domain/src/path.rs:13-50 | In every state of every interleaving, any path that resolves to an object normalises to its rendered path |
| Reachable.BlobsClassified | crates/anystore-metastore-postgres/src/maintenance.rs:20-64 | In every state of every interleaving, each session's blob is in exactly one class, and a live one is not queued, claimed or collected |
| Reachable.ExecutionIsRun | crates/anystore-metastore-postgres/src/objects_write.rs:215-711 | The committed stores of every interleaving form a run of the atomic store |
| Reachable.ClaimedStaysDead | crates/anystore-metastore-postgres/src/maintenance.rs:20-64 | In every interleaving, a blob once claimed for collection is never live content again |
| Reachable.CommittedCompletions | crates/anystore-metastore-postgres/src/objects_write.rs:546-708 | In every interleaving, completed sessions keep their content records and new ones get records of their own |
| Reachable.CompletionsAreRecords | crates/anystore-metastore-postgres/src/objects_write.rs:546-708 | In every state of every interleaving, completed sessions and content records correspond one to one |
| Reachable.EndedSessionsStayEnded | crates/anystore-metastore-postgres/src/uploads.rs:75-135 | In every interleaving, a session once aborted or expired never completes |
| Reachable.CommittedPatchMovesSubtree | crates/anystore-metastore-postgres/src/objects_write.rs:287-434 | Whatever ran beside it, a committed patch moves its object's subtree as a whole |
| Reachable.CommittedWrites | crates/anystore-metastore-postgres/src/objects_write.rs:215-711 | Whatever ran beside it, a committed transaction writes exactly what its command asks for on the rows as they are at the commit |
| Reachable.CommittedOnMatchedRevision | crates/anystore-metastore-postgres/src/objects_write.rs:66-74 | No lost update: a transaction sent with a revision commits only while that is the object's committed revision |
| Reachable.CommittedDeleteRemovesExactly | crates/anystore-metastore-postgres/src/objects_write.rs:473-529 | Whatever ran beside it, a committed delete ends exactly the live subtree of its target as it is at the commit |
| Reachable.CommittedDeleteChildFirst | crates/anystore-metastore-postgres/src/objects_write.rs:507-529 | Whatever ran beside it, a committed delete's records are one tombstone per member at its next revision, children before parents |
| Reachable.FeedMirrorsExecution | crates/anystore-metastore-postgres/src/objects_write.rs:102-167 | In every execution the feed that appends each commit's records is the committed log and keeps the feed invariant |
| Canonical.CanonicalRequest | crates/anystore-application/src/context.rs:28-62 | Feeding the fields one by one, query pairs sorted, gives the pre-image |
| Canonical.PreImageExact | crates/anystore-application/src/context.rs:23-62 | Two requests give the same bytes exactly when principal, method, route, target, multiset of query pairs, body and If-Match are equal |
| Canonical.ConcatInjective | crates/anystore-application/src/context.rs:40-44 | Length prefixes leave one way to cut the bytes back into fields |
| Canonical.FieldShape | crates/anystore-application/src/context.rs:41-44 | A field is its length as eight big-endian bytes, followed by its bytes |
| Canonical.DecimalValue | crates/anystore-application/src/context.rs:55-58 | A revision is written in decimal digits without leading zeros |
| Canonical.SortedUnique | crates/anystore-application/src/context.rs:37-38 | A sorted query is determined by its multiset of pairs |
| Paging.ClampLimit | crates/anystore-domain/src/page.rs:58-61 | A limit in range is kept, a larger one is cut to the maximum, a missing one is the default, and none is below one |
| Paging.ListPage | crates/anystore-metastore-postgres/src/objects_read.rs:87-143 | A request returns the first rows after the cursor in key and id order, with `has_more` and the next cursor from the look-ahead row |
| Paging.PageExact | crates/anystore-metastore-postgres/src/objects_read.rs:276-305 | A page holds, in order, exactly the rows between its cursor and the next one, or all the rest when there is none |
| Paging.PageOrder | crates/anystore-metastore-postgres/src/objects_read.rs:106-121 | A page is ordered by name byte by byte, or by number, with ties by id, and the other way round when descending |
| Paging.StableChildOnce | crates/anystore-metastore-postgres/src/objects_read.rs:87-143 | Under any changes between pages, a row whose membership and sort key stay unchanged is returned exactly once by a finished traversal |
| Paging.SameRowSamePlace | crates/anystore-metastore-postgres/src/objects_read.rs:101-110 | Whatever changed between pages, no row is returned twice with the same sort key |
| Paging.OncePerPage | crates/anystore-metastore-postgres/src/objects_read.rs:87-143 | One page never holds a row twice |
| Paging.ReturnedAgainFurtherOn | crates/anystore-metastore-postgres/src/objects_read.rs:101-110 | A row returned again on a later page has moved strictly forward in the traversal's direction |
| Paging.MovedRowReturnsAgain | crates/anystore-metastore-postgres/src/objects_read.rs:101-110 | A concrete two-page traversal that returns a row twice because its key moved forward in between |
| Paging.FixedDataListsAll | crates/anystore-metastore-postgres/src/objects_read.rs:87-143 | On fixed data a finished traversal's pages concatenate to the full sorted listing, and there are at most as many pages as rows |
| Paging.StableNamedChildOnce | crates/anystore-metastore-postgres/src/objects_read.rs:87-143 | A live child that keeps its parent and name is listed exactly once by a listing by name |

## Left out

- Size, content type, checksum and timestamps of an object: stored and returned, but no modelled check depends on them.
- Response rendering, stored headers and the JSON bodies of responses: a response is an opaque value.
- The polling loop of `acquire`, which is modelled as one step, and its wait for another transaction's row lock.
- Reading Changes while a purge of Changes runs: each is one step of a history.
- Row locks inside one INSERT or UPDATE statement are taken together; PostgreSQL takes them one by one.
- Deadlocks among object rows, index keys and upload rows: PostgreSQL aborts one of the transactions, which is a rollback step.
- The order in which due sessions and queue entries are picked: a batch is any due set of at most the limit's size.
- Cursor text (base64 and JSON): a cursor is the key and id it encodes; a malformed one is not modelled.
- Listing by name compares bytes; a database collation that orders names differently is not modelled.
- The SHA-256 digest of the pre-image and of derived ids, taken as injective.
- Filters of metadata queries: a query is any set of admitted rows ordered by id.
- Provider calls of the blob store: their outcomes are parameters of the upload and maintenance methods.
- Metadata documents that are not JSON objects.
- The resume path of multipart sessions, and part allocation, which change no modelled state.
- HTTP routing, authentication, metrics, configuration, and the PostgREST transport of the same transactions.
- A storage error that cuts a maintenance pass short, and other clients adding entries during a pass.
- Retention periods as real time: expiry is a comparison with a given time.
