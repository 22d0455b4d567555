# Verified models of the platform's stateful core

This project models the pieces of the platform whose correctness depends on state, ordering or
naming, and proves what callers rely on. It is written in Dafny 4.11; `dafny verify dfyconfig.toml`
checks everything.

Each piece is modelled against an abstract environment (a file tree, a bucket, two tables, a Redis
keyspace, a clock, a provider's answer). Sequential code is a class whose methods change its fields
call by call and are proved equal to a step function; concurrent code is a step machine whose steps
are the stretches of code between two awaits. The theorems are about every run of those steps.

| piece | modules |
|---|---|
| blob store port, filesystem adapter, S3 adapter | `BlobStore`, `FileTree`, `FilesystemAdapter`, `FilesystemRefinement`, `PlainKeys`, `FilesystemOutcomes`, `KeyDiscipline`, `CrashRecovery`, `CrashListing`, `CrashOperations`, `S3Adapter`, `S3Refinement`, `S3Contents`, `AdapterAgreement` |
| lazily created shared S3 client | `SharedClient` |
| outbox dispatcher | `Outbox`, `OutboxWakeups`, `OutboxListening`, `OutboxDelivery`, `OutboxOrder`, `OutboxDispatcher` |
| tenant keys and the authentication cache | `TenantStore`, `KeyLifecycle`, `Authenticator`, `KeyLifetime`, `CachedAnswers`, `TenantRecords` |
| fixed-window rate limiter | `RateSpec`, `FixedWindow`, `RateBounds`, `RateExtremes`, `RateLimiter` |
| embedding cache | `Embeddings`, `EmbeddingCache`, `EmbeddingClient`, `EmbeddingAgreement`, `EmbeddingRequests` |
| backend health and reconnect | `BackendHealth`, `HealthChecker` |
| tenant names | `RedisNamespace`, `TenantDatabase`, `NamesWritten` |
| shared helpers | `Wrappers`, `Text`, `Division` |

## Where the code and its documentation disagree

The models follow the code. The lemmas named at each point say exactly what holds and exhibit where the
documented statement fails.

- The store's docstring says soft-deleted tenants do not authenticate (`llm/gateway/app/tenancy/store.py:143`).
  Only the current-key query filters `deleted_at`; the grace loop answers with `get`, which does not.
  An archived tenant authenticates by exactly its unexpired rotated-out keys
  (`ArchivedTenantAuthenticatesIff`, `ArchivedTenantAuthenticates`).
- `aclose` promises that the next operation creates the client again (`storage/adapters/_s3_compatible.py:116-123`).
  It does exactly when none of its exits raised or nothing was cached (`AcloseResetsIff`). The client an
  operation finds cached, at either look, is open exactly when no raising aclose left it behind and its own
  exit is not in flight (`CachedIsOpenIff`, `ServedClientIsOpenIff`). Both failures happen
  (`RaisingExitLeavesStaleClient`, `OperationDuringAcloseGetsClosingClient`); an exit of another client in
  flight does no harm (`OperationDuringOtherExitGetsOpenClient`).
- The cache is documented as keyed by provider, model and text (`client-sdks/python/vams_llm_client/cache.py:3`).
  The three parts are joined by NUL characters, so a model id that is another one followed by NUL
  shares its keys. Cached and direct calls agree exactly when no such pair is in use
  (`AgreementIff`).
- `derive_namespace` says it mirrors the database rule (`sdk/basic_infra_redis_client/basic_infra_redis_client/namespace.py:17-22`).
  It collapses runs of hyphens, the database rule does not: they agree exactly on tenants without two
  adjacent hyphens, and two valid tenants with two databases can share one namespace
  (`NamespaceIsDatabaseIff`, `NamespacesCollideIff`, `OwnsNamespaceIff`, `OneNamespaceTwoDatabases`).
- The port's contract, read as one map from (tenant, key) to blob (`storage/ports/blob_store.py:100-170`), is met by
  the filesystem adapter only for keys that stay out of each other's way. Not only final names ending in
  `.tmp` or `.meta.json` matter: a key also clashes with one stored below a directory of such a name.
  `DisciplineIsExact` shows that the pairwise condition of the model is necessary and sufficient.
- A rotated-out key is rejected from its expiry plus the cache's TTL on; when the TTL is zero or less,
  from the first instant past its expiry, since the store still accepts it at the expiry itself
  (`ComposedLifetime`).
- The filesystem adapter calls its writes atomic (`storage/adapters/filesystem.py:157`). The blob is, at every
  state a put passes through (`PutIsAtomic`); what the operations say of it is not. A crash can leave a
  temporary file that is listed as a blob, new bytes under the old size and tag, or an empty sidecar at which
  get, head and list fail (`ListAfterCrash`, `ReadAfterCrash`). A delete removes all but the temporary file
  (`DeleteAfterCrash`); an unconditional put repairs everything, a conditional one is refused once the
  crashed put has renamed its file (`PutAfterCrash`).
- The limiter counts requests per window by the clock they read (`llm/gateway/app/tenancy/ratelimit.py:3`). An INCR
  that arrives when its window is over may find the counter expired and start it again. Once all its INCRs
  have been compared, a window has let more than `count` through, errors aside, exactly when its counter was
  started twice and it has more than `count` INCRs (`WindowWithinCountIff`); every start can let another
  `count` requests pass (`StartsReachBound`).

## Idealisations

SHA-256, S3 entity tags, Argon2 and the cache digest are free constructors, so equal digests mean equal
input. Raw blob bytes are never equal to the JSON text of a sidecar, and reading a sidecar file as a blob fails in
the model where the source returns its JSON text; no disciplined key names one. S3 keeps user metadata keys as
given, where the service lower-cases them. JSON round trips are exact. Strings
are over ASCII for lower-casing, digits and white space; `$` in the tenant pattern is the end of the
string. Clocks are integers and never go back; the tenant store and the authenticator share one.

## Model

| member | source | states |
|---|---|---|
| BlobStore.JoinChunks | storage/ports/blob_store.py:92-97 | joining the streamed chunks gives their concatenation |
| FilesystemAdapter.Adapter.Put | storage/adapters/filesystem.py:140-199 | put call by call: tree and outcome are those of the step function; every intermediate disk state is a state of the put, with the blob as before or complete |
| FilesystemAdapter.Adapter.WriteChunks | storage/adapters/filesystem.py:159-172 | running hash and size are those of the joined chunks, for any chunking |
| FilesystemAdapter.Adapter.SwapInContent | storage/adapters/filesystem.py:162-179 | temporary file holding ever more of the data, rename, and clean-up on every failure |
| FilesystemAdapter.Adapter.Delete | storage/adapters/filesystem.py:216-222 | removes blob and sidecar; missing files are fine, directories in the way are not |
| FilesystemAdapter.Adapter.Get | storage/adapters/filesystem.py:201-214 | reading through the stream returns the file's bytes with its metadata |
| FilesystemAdapter.Adapter.Head | storage/adapters/filesystem.py:224-230 | absent, or the sidecar's or recomputed metadata |
| FilesystemAdapter.Adapter.LoadMetadata | storage/adapters/filesystem.py:288-322 | sidecar when there is one, else size and hash recomputed from the bytes |
| FilesystemAdapter.Adapter.List | storage/adapters/filesystem.py:232-266 | one reference for each file below the tenant that is listed, as a set; fails when one cannot be read or the prefix escapes; that stored keys are listed is `PlainKeys.StoredKeysAreListed` |
| FilesystemAdapter.StreamChunks | storage/adapters/filesystem.py:63-69 | the chunks of a read join to the file, whatever its length |
| FilesystemAdapter.ComputeEtag | storage/adapters/filesystem.py:127-136 | chunk-wise hashing is the hash of the bytes |
| FilesystemAdapter.WalkStep | storage/adapters/filesystem.py:251-266 | one step of the directory walk keeps the correspondence between visited files and references |
| FilesystemAdapter.PutStateIsCrashPoint | storage/adapters/filesystem.py:155-191 | every state a put passes through touches its three paths only; until the rename blob and sidecar are the old ones, from then on the blob is complete and its sidecar old, empty or new |
| FilesystemRefinement.ResolveValid | storage/adapters/filesystem.py:93-122 | a normal tenant and key resolve to the path of their own segments |
| FilesystemRefinement.ReadsRefine | storage/adapters/filesystem.py:201-230 | get and head answer what the map holds, or that it holds nothing |
| FilesystemRefinement.PutRefines | storage/adapters/filesystem.py:140-199 | put has the outcome of the map's put and leaves the tree representing the updated map, so no other key changes |
| FilesystemRefinement.DeleteRefines | storage/adapters/filesystem.py:216-222 | delete removes exactly its key from the map |
| FilesystemRefinement.ListRefines | storage/adapters/filesystem.py:232-266 | list yields exactly the tenant's stored keys with the prefix, with their metadata |
| FilesystemRefinement.StepRefines | storage/adapters/filesystem.py:93-266 | every operation on disciplined keys refines the map's step |
| FilesystemRefinement.RunRefines | storage/adapters/filesystem.py:93-266 | over every run of operations by any tenants, the outcomes are the map's and the tree represents the map |
| PlainKeys.PlainIsDisciplined | storage/adapters/filesystem.py:53-58 | any keys of plain segments, none below another and none ending in `.tmp` or `.meta.json`, are disciplined |
| PlainKeys.PlainRunsRefine | storage/adapters/filesystem.py:93-266 | so every run on such keys gives the outcomes of the map |
| PlainKeys.StoredKeysAreListed | storage/adapters/filesystem.py:232-266 | after any such run list yields every stored key with the prefix, with its size, tag and content type, and no other |
| PlainKeys.ConfigJson | storage/adapters/filesystem.py:124-191 | a put of `config.json`: its three paths and the two files it leaves, written out |
| PlainKeys.KeyOperationsRefuseIff | storage/adapters/filesystem.py:99-110 | on any tree, exactly an empty tenant, one with a slash, `.`, `..`, an absolute key or one with a `..` segment raises the isolation error, in every operation on a key, and changes nothing |
| PlainKeys.ListRefusesIff | storage/adapters/filesystem.py:232-249 | list refuses exactly an absolute prefix or one with a `..` segment, once the tenant has a directory, and never changes the tree |
| PlainKeys.SameFileThreeKeys | storage/adapters/filesystem.py:105-112 | empty and `.` segments do not count: three spellings of a key are one file |
| FilesystemOutcomes.RunWellFormed | storage/adapters/filesystem.py:93-266 | after any run on any keys every file lies below directories |
| FilesystemOutcomes.PutStoresIff | storage/adapters/filesystem.py:140-199 | on any such tree a put stores exactly when its source does not fail, no file lies above its path and none of its three paths is a directory, and for a conditional one nothing is there |
| FilesystemOutcomes.PutWithoutSidecar | storage/adapters/filesystem.py:155-191 | a put that finds a directory at its sidecar's path fails after it has replaced the blob |
| FilesystemOutcomes.GetFetchesIff | storage/adapters/filesystem.py:201-214 | exactly when a get answers with data, and that it is not found exactly when nothing is there |
| FilesystemOutcomes.HeadDescribesIff | storage/adapters/filesystem.py:224-230 | exactly when a head answers, is absent or fails |
| FilesystemOutcomes.DeleteSucceedsIff | storage/adapters/filesystem.py:216-222 | a delete succeeds exactly when neither path is a directory; when only the sidecar's is, the blob is gone all the same |
| FilesystemOutcomes.StoredIsRead | storage/adapters/filesystem.py:140-230 | on any such tree, what a put has stored get and head answer: bytes, size, digest, content type and user metadata |
| FilesystemOutcomes.DeletedIsGone | storage/adapters/filesystem.py:201-230 | after a delete that succeeds get finds nothing and head is absent |
| KeyDiscipline.DisciplineIsExact | storage/adapters/filesystem.py:93-191 | any set of keys is disciplined if and only if every run on it behaves like the map |
| KeyDiscipline.ClashBreaksRun | storage/adapters/filesystem.py:155-191 | any two clashing keys have a run that departs from the map |
| KeyDiscipline.InvalidIdBreaksRun | storage/adapters/filesystem.py:93-122 | a key that is refused, or with empty or `.` segments, has a run of its own that departs from the map |
| KeyDiscipline.MetaNameBreaksRun | storage/adapters/filesystem.py:254-255 | a key whose last name is that of a sidecar has a run that departs from the map |
| KeyDiscipline.HiddenFromList | storage/adapters/filesystem.py:251-255 | such a key, once stored, is not listed |
| CrashRecovery.PutIsAtomic | storage/adapters/filesystem.py:157-191 | at every state of a put, whatever was stored before: its blob is unchanged, absent included, or complete and new; blobs and sidecars of other disciplined keys are unchanged |
| CrashRecovery.CrashKeepsOthers | storage/adapters/filesystem.py:157-191 | a crash during a put leaves every other disciplined blob held with its metadata |
| CrashRecovery.RetryAfterCrash | storage/adapters/filesystem.py:155-191 | repeating a put after a crash gives the very tree of an uninterrupted put |
| CrashRecovery.CrashedPutHeals | storage/adapters/filesystem.py:140-199 | after a crashed put, any successful put of the key restores agreement with the map |
| CrashRecovery.SidecarsAgree | storage/adapters/filesystem.py:183-191 | after any crash-free run, size and tag are the same from the sidecar and recomputed from the bytes |
| CrashRecovery.HeldSidecarAgrees | storage/adapters/filesystem.py:288-322 | a held blob reports the size and digest of its bytes with and without its sidecar |
| CrashListing.ListAfterCrash | storage/adapters/filesystem.py:232-266 | what list answers at each crash point of a put, for every tenant and prefix: leftover temporary file, old sidecar over new bytes, truncated sidecar, and the complete cases |
| CrashOperations.CrashedTreesAreAll | storage/adapters/filesystem.py:155-191 | the trees of the next rows are all the crash points of a put on disciplined keys |
| CrashOperations.ReadAfterCrash | storage/adapters/filesystem.py:201-230 | what get and head answer at each crash point of a put to the key |
| CrashOperations.OthersReadAfterCrash | storage/adapters/filesystem.py:201-230 | get and head of any other key answer as before, at each crash point |
| CrashOperations.DeleteAfterCrash | storage/adapters/filesystem.py:216-222 | at each crash point a delete succeeds, the key is absent again, and only a leftover temporary file stays |
| CrashOperations.ListAfterCrashAndDelete | storage/adapters/filesystem.py:216-266 | what list answers after such a delete, the leftover temporary file included |
| CrashOperations.PutAfterCrash | storage/adapters/filesystem.py:140-199 | what the next put does at each crash point: a conditional one is refused after the rename, a failing source removes the leftover only, every other restores the map |
| S3Adapter.StripUndoesObjectKey | storage/adapters/_s3_compatible.py:125-144 | stripping the tenant undoes building the object key |
| S3Adapter.ObjectKeyInjective | storage/adapters/_s3_compatible.py:125-135 | object keys determine tenant and key |
| S3Adapter.TenantPrefixesDisjoint | storage/adapters/_s3_compatible.py:125-144 | no object key carries two tenants' prefixes |
| S3Adapter.ListedKeysStrip | storage/adapters/_s3_compatible.py:273-293 | inside list, stripping never raises and gives a key with the prefix |
| S3Adapter.Adapter.Put | storage/adapters/_s3_compatible.py:148-200 | buffers the source, then stores it, conditionally when asked; what is then reported of it is `S3Contents.LastPutIsReported` |
| S3Adapter.Adapter.List | storage/adapters/_s3_compatible.py:273-297 | the references collected are those of all matching objects, and no strip fails |
| S3Refinement.ListRefines | storage/adapters/_s3_compatible.py:273-297 | list yields exactly the tenant's stored keys with the prefix |
| S3Refinement.StepRefines | storage/adapters/_s3_compatible.py:148-297 | every operation refines the map's step, except that a broken source wins over an existing key |
| S3Refinement.RunRefines | storage/adapters/_s3_compatible.py:148-297 | over every run the outcomes are the map's in S3's terms, except that a failing source wins over an existing key, and the bucket represents the map |
| S3Contents.LastPutIsReported | storage/adapters/_s3_compatible.py:170-271 | after every run get and head of a stored key report the bytes and metadata of its last successful put, and its content type exactly when that put gave a nonempty one |
| S3Contents.ObjectNames | storage/adapters/_s3_compatible.py:125-135 | object names are tenant, slash and key; which tenants and keys have none |
| S3Contents.KeyOperationsRefuseIff | storage/adapters/_s3_compatible.py:125-135 | in any bucket exactly an empty tenant, one with a slash or a key with a leading slash raises the isolation error, in every operation on a key, and changes nothing |
| S3Contents.ListRefusesIff | storage/adapters/_s3_compatible.py:273-297 | list refuses exactly a nonempty prefix for such a tenant or with a leading slash |
| S3Contents.PutStoresUnderTenant | storage/adapters/_s3_compatible.py:158-200 | a conditional put into an empty bucket: the one object it leaves and its answer, written out |
| S3Contents.StoredIsRead | storage/adapters/_s3_compatible.py:158-271 | in any bucket, what a put has stored get and head answer |
| S3Contents.DeletedIsGone | storage/adapters/_s3_compatible.py:231-257 | after a delete get finds nothing and head is absent |
| AdapterAgreement.AdaptersAgree | storage/ports/blob_store.py:100-170 | on every run on disciplined keys both adapters give the same outcomes up to tags and unreported content types; an outcome differs exactly for a conditional put of a failing source to a stored key |
| AdapterAgreement.BrokenSourceDiffers | storage/ports/blob_store.py:106-130 | in that case the filesystem reports the existing key, S3 the failing source |
| SharedClient.RunKeepsInv | storage/adapters/_s3_compatible.py:94-123 | the invariant on lock, cached client, exit stack and client states holds in every interleaving |
| SharedClient.OneOpenClient | storage/adapters/_s3_compatible.py:94-123 | at most one client is open; it is the cached one and alone on the stack; no cached client, empty stack |
| SharedClient.EveryClientExitsOnce | storage/adapters/_s3_compatible.py:94-123 | each client created is on the stack or was exited, exactly once in all |
| SharedClient.CreationIsExclusive | storage/adapters/_s3_compatible.py:101-113 | one task creates at a time, with no client open |
| SharedClient.CachedIsOpenIff | storage/adapters/_s3_compatible.py:94-123 | in every run, exits in flight included, the cached client is open exactly when it is on the exit stack, and exactly when it was not left behind by a raising aclose and its own exit is not in flight |
| SharedClient.ServedClientIsOpenIff | storage/adapters/_s3_compatible.py:101-114 | an operation that finds a cached client, at the first look or under the lock, is handed that client, open exactly in that case |
| SharedClient.CreatedClientIsOpen | storage/adapters/_s3_compatible.py:104-114 | an operation that creates the client is handed it open and leaves it cached |
| SharedClient.AcloseResetsIff | storage/adapters/_s3_compatible.py:116-123 | the last step of an aclose clears the cache, so that the next operation creates, exactly when nothing was cached or none of its exits raised; no client is open then |
| SharedClient.NoDeadlock | storage/adapters/_s3_compatible.py:94-123 | in every run, while a task is inside either method some task can go on |
| SharedClient.FailedCreationIsForgotten | storage/adapters/_s3_compatible.py:102-113 | a creation that raises gives the lock back and caches nothing; the next task creates |
| SharedClient.AwaitsMayReturnOrRaise | storage/adapters/_s3_compatible.py:94-123 | which steps a task can take: either call when idle, either end of a creation or of an exit |
| SharedClient.RaisingExitLeavesStaleClient | storage/adapters/_s3_compatible.py:116-123 | a run in which a raising exit makes the next operation get a closed client |
| SharedClient.OperationDuringAcloseGetsClosingClient | storage/adapters/_s3_compatible.py:101-123 | a run in which an operation during an aclose is handed the client being closed |
| SharedClient.OperationDuringOtherExitGetsOpenClient | storage/adapters/_s3_compatible.py:101-123 | a run in which an operation is handed an open client while another client's exit is in flight |
| OutboxDispatcher.DeliverBacklog | outbox/basic_infra_outbox/dispatcher.py:39-71 | delivers the fetched rows in order, marks each, returns their number; a payload that does not decode raises after the rows before it; an absent table does nothing |
| OutboxDispatcher.RecordingSink.Deliver | outbox/basic_infra_outbox/sinks.py:46-53 | the recording sink appends the event |
| OutboxDispatcher.EventsAreTheirRows | outbox/basic_infra_outbox/dispatcher.py:55-62 | each delivered event has its own row's id, type and time, and its payload decoded |
| OutboxDispatcher.DecodesIff | outbox/basic_infra_outbox/dispatcher.py:60 | only JSON text can fail to decode |
| OutboxDispatcher.ScanRuns | outbox/basic_infra_outbox/dispatcher.py:54-68 | the machine's uninterrupted scan has the same effect on table and log as the loop |
| OutboxDispatcher.MarkAllMarks | outbox/basic_infra_outbox/dispatcher.py:55-68 | a finished scan has processed exactly the fetched rows and no other |
| OutboxWakeups.NoLostWakeup | outbox/basic_infra_outbox/dispatcher.py:78-88 | parked with a clear doorbell, every unprocessed row's notification was lost, is in flight, or came while nobody listened; when each of these can be, from the steps alone, is `OutboxListening` |
| OutboxListening.ListensOn | outbox/basic_infra_outbox/dispatcher.py:78-90 | from the moment the listener is added the dispatcher listens until it stops or crashes |
| OutboxListening.CommittedIsNotified | outbox/basic_infra_outbox/dispatcher.py:79-80 | a row committed in that time is never unheard of: unless it is lost, its notification is in flight until it arrives |
| OutboxListening.ArrivalLeadsToFetch | outbox/basic_infra_outbox/dispatcher.py:79-88 | once that notification has arrived, whenever the dispatcher is parked later the row is processed, or the doorbell is set, it can wake, and the fetch that follows has the row |
| OutboxListening.DoorbellIff | outbox/basic_infra_outbox/dispatcher.py:79-87 | the doorbell is set exactly when a notification has arrived since the latest wake-up, timeout, stop or crash |
| OutboxListening.LostIff | outbox/basic_infra_outbox/dispatcher.py:79-90 | a notification in flight may arrive; exactly when one counts as lost |
| OutboxListening.CrashRedelivers | outbox/basic_infra_outbox/dispatcher.py:63-67 | a crash between delivery and UPDATE can happen, and the restarted dispatcher fetches the row again |
| OutboxListening.StopIsClean | outbox/basic_infra_outbox/dispatcher.py:82-90 | a stop between scans ends the run with every delivered row marked |
| OutboxWakeups.PollScansEverything | outbox/basic_infra_outbox/dispatcher.py:82-88 | the fetch after a poll timeout includes every row unprocessed at the timeout or committed before the fetch, whatever commits and notifications come between |
| OutboxWakeups.NoRowIsLost | outbox/basic_infra_outbox/dispatcher.py:73-90 | parked again after a further scan, the dispatcher has processed every earlier row, whatever crashed meanwhile |
| OutboxDelivery.RunLedger | outbox/basic_infra_outbox/dispatcher.py:55-68 | deliveries are conserved: processed rows, crash gaps and the row being marked account for the log |
| OutboxDelivery.DeliveriesOfRow | outbox/basic_infra_outbox/dispatcher.py:63-67 | a row's deliveries: one if processed, one per crash in its gap, one while its UPDATE is pending |
| OutboxDelivery.ProcessedWasDelivered | outbox/basic_infra_outbox/dispatcher.py:63-67 | no row is marked without having been delivered |
| OutboxDelivery.TotalDeliveries | outbox/basic_infra_outbox/dispatcher.py:46-71 | deliveries are at most processed rows plus crashes plus one |
| OutboxDelivery.LogInOrder | outbox/basic_infra_outbox/dispatcher.py:47-68 | with commits in id order the whole log is non-decreasing, with repeats exactly at crash redeliveries |
| OutboxDelivery.LateCommitBreaksOrder | outbox/basic_infra_outbox/dispatcher.py:47-50 | without that condition a crash-free run delivers out of order |
| OutboxOrder.LogSortedIff | outbox/basic_infra_outbox/dispatcher.py:47-68 | the log of a run that ends drained is non-decreasing exactly when no row was ever unprocessed below a delivered one, whatever the order of commits |
| OutboxOrder.UndeliveredRowBlocks | outbox/basic_infra_outbox/dispatcher.py:55-68 | a fetched row that is never delivered stays unprocessed and blocks every row above it through any restarts; only rows below it are delivered |
| TenantStore.Store.Authenticate | llm/gateway/app/tenancy/store.py:138-162 | both loops: first active current-key match, then first unexpired rotated-out match |
| TenantStore.Store.Create | llm/gateway/app/tenancy/store.py:166-202 | adds an active tenant with its key, or reports that the id exists |
| TenantStore.Store.RotateKey | llm/gateway/app/tenancy/store.py:204-231 | the old hash enters the grace table, the new one replaces it; only for active tenants |
| TenantStore.Store.SoftDelete | llm/gateway/app/tenancy/store.py:233-247 | archives an active tenant and touches nothing else |
| TenantRecords.RecordAsCreated | llm/gateway/app/tenancy/store.py:138-162 | whenever a key authenticates, from the store or the cache, the record has the display name, models and limits its tenant was created with, through any rotations and archivings |
| TenantRecords.CreatedRecord | llm/gateway/app/tenancy/store.py:181-202 | the record of a new tenant: what was given, the time of creation twice, not archived |
| TenantRecords.RotatedRecord | llm/gateway/app/tenancy/store.py:224-231 | a rotation stamps its time and changes nothing else, in this record or any other |
| TenantRecords.RotatedGraceRows | llm/gateway/app/tenancy/store.py:217-223 | a rotation leaves one grace row for the outgoing hash, lasting the grace period from now on, and no other row comes or goes |
| TenantRecords.ArchivedRecord | llm/gateway/app/tenancy/store.py:233-247 | archiving stamps its time twice and changes nothing else |
| TenantRecords.OperationsFailIff | llm/gateway/app/tenancy/store.py:179-247 | creation fails exactly for a taken id, archived or not; rotation and archiving exactly for an unknown or archived one |
| KeyLifecycle.AuthenticateMatchesLife | llm/gateway/app/tenancy/store.py:138-162 | the table searches answer by the key's life: current and not archived, or rotated out and not expired |
| KeyLifecycle.CreateRepresents | llm/gateway/app/tenancy/store.py:166-202 | creation with a fresh key issues exactly that key |
| KeyLifecycle.RotateRepresents | llm/gateway/app/tenancy/store.py:204-231 | rotation moves one key to rotated-out with its expiry and issues the new one |
| KeyLifecycle.SoftDeleteRepresents | llm/gateway/app/tenancy/store.py:233-247 | archiving changes no key's state |
| KeyLifetime.StoreAnswersByLife | llm/gateway/app/tenancy/store.py:138-162 | over every run with fresh keys the store answers exactly by the key's life |
| KeyLifetime.KeyKeepsItsTenant | llm/gateway/app/tenancy/auth.py:33-51 | a key never resolves to another tenant than its own, in the store or through the cache |
| KeyLifetime.RunBounded | llm/gateway/app/tenancy/auth.py:57-61 | the cache never exceeds its size and never holds a key twice |
| KeyLifetime.RunSound | llm/gateway/app/tenancy/auth.py:40-61 | every entry is an answer the store gave for that key at its insertion time |
| KeyLifetime.BoundedStaleness | llm/gateway/app/tenancy/auth.py:33-51 | positive answers are less than a TTL old or current, negative ones are current |
| KeyLifetime.RotatedOutKey | llm/gateway/app/tenancy/store.py:153-161 | a rotated-out key is accepted up to its expiry and rejected from a TTL after it |
| KeyLifetime.ComposedLifetime | llm/gateway/app/tenancy/auth.py:33-61 | the same from the rotation on, whatever lookups, evictions, rotations or archiving come between |
| KeyLifetime.ArchivedKeyStops | llm/gateway/app/tenancy/auth.py:33-51 | from a TTL after its archiving on, a tenant's current key is refused, whatever lookups, evictions or other events come between |
| KeyLifetime.ArchivedTenantAuthenticatesIff | llm/gateway/app/tenancy/store.py:143-161 | an archived tenant authenticates by exactly its unexpired rotated-out keys |
| KeyLifetime.ArchivedTenantAuthenticates | llm/gateway/app/tenancy/store.py:120-126 | a run in which an archived tenant authenticates |
| Authenticator.Authenticator.Authenticate | llm/gateway/app/tenancy/auth.py:33-51 | hit, expired hit, miss and full cache, as one step on the dictionary; that hits are served is `CachedAnswers.RememberedAnswerIsServed` |
| Authenticator.Authenticator.FindOldest | llm/gateway/app/tenancy/auth.py:58-60 | the loop finds the first entry of least insertion time |
| Authenticator.RememberEvictsOldest | llm/gateway/app/tenancy/auth.py:57-61 | eviction takes one entry of least insertion time, and only when full |
| Authenticator.AuthStepKeepsCache | llm/gateway/app/tenancy/auth.py:33-61 | a lookup adds at most the fresh answer, keeps keys distinct and the size bounded |
| Authenticator.AuthRaisesIff | llm/gateway/app/tenancy/auth.py:57-61 | authentication raises exactly when a cache of no size must remember an answer |
| Authenticator.DropKeyDrops | llm/gateway/app/tenancy/auth.py:53-55 | invalidation removes that key's entry and no other |
| CachedAnswers.RememberedAnswerIsServed | llm/gateway/app/tenancy/auth.py:40-51 | an answer that was remembered is given again for a TTL without the store, whatever rotations and archivings come between, unless the key is invalidated or as many lookups of other keys as the cache holds follow |
| CachedAnswers.EntryStays | llm/gateway/app/tenancy/auth.py:40-61 | an entry stays as long as its TTL lasts, its key is not invalidated and fewer lookups of other keys follow than the cache holds |
| CachedAnswers.InvalidatedKeyIsAsked | llm/gateway/app/tenancy/auth.py:53-55 | after any run, the lookup that follows an invalidation asks the store |
| RateSpec.ParseFormatted | llm/gateway/app/tenancy/ratelimit.py:36-46 | every `<count>/<unit>` parses back to its count and window |
| RateSpec.ParsesIff | llm/gateway/app/tenancy/ratelimit.py:36-46 | exactly which texts parse and to what: digits and a unit in any case, white space around either; all else is rejected |
| RateSpec.LimitsWritten | llm/gateway/app/tenancy/ratelimit.py:29-46 | the six units written out: `/sec` and `/s` are 1, `/min` and `/m` 60, `/hour` and `/h` 3600 seconds |
| Text.SpacesAre | llm/gateway/app/tenancy/ratelimit.py:43-44 | the white space that may surround count and unit |
| RateSpec.TenantLimitFirst | llm/gateway/app/tenancy/ratelimit.py:63-67 | a tenant's own limit comes before the default, which counts only for endpoints it does not mention |
| RateSpec.KeyWritten | llm/gateway/app/tenancy/ratelimit.py:83 | a counter's key, written out |
| RateSpec.DefaultLimitsParse | llm/gateway/app/tenancy/ratelimit.py:21-27 | which limit each endpoint has by default, and which have none |
| RateSpec.WindowKeyInjective | llm/gateway/app/tenancy/ratelimit.py:79-81 | keys determine tenant, endpoint and bucket, for endpoints without colons |
| FixedWindow.RunKeepsInv | llm/gateway/app/tenancy/ratelimit.py:79-101 | in every interleaving, counters are exact inside their window and no expiry falls before its end |
| FixedWindow.NeverResetInsideWindow | llm/gateway/app/tenancy/ratelimit.py:82-85 | while its window lasts, a counter is live and equals the INCRs of that window |
| RateBounds.FirstCountPass | llm/gateway/app/tenancy/ratelimit.py:82-101 | a compared request passes exactly when it is among the first `count` INCRs since its counter was started; in time, among the first `count` of its window |
| RateBounds.ResponsesAddUp | llm/gateway/app/tenancy/ratelimit.py:82-101 | in every run and for any selection of requests, accepted responses are the INCRs that passed plus, exactly when failing open, the errors |
| RateBounds.AcceptedPerWindow | llm/gateway/app/tenancy/ratelimit.py:82-101 | accepted responses of a window are at most `count` per start of its counter, and at most `count` plus its late INCRs, each time plus, failing open, its errors; starts are at most one plus the late INCRs |
| RateBounds.WindowWithinCountIff | llm/gateway/app/tenancy/ratelimit.py:82-101 | once every INCR of a window is compared, it has accepted at most `count`, errors aside, exactly when its counter was started at most once or it has at most `count` INCRs (or the limit is zero) |
| RateBounds.AcceptedPerInterval | llm/gateway/app/tenancy/ratelimit.py:76-101 | any interval of length L accepts at most count * (floor((L - 1) / window) + 2), plus its late INCRs and, failing open, its errors |
| RateBounds.AtMostTwicePerWindowLength | llm/gateway/app/tenancy/ratelimit.py:76-101 | any stretch of one window length accepts at most twice the count, with the same two allowances |
| RateBounds.RetryAfterIsNextWindow | llm/gateway/app/tenancy/ratelimit.py:96-101 | the wait is between 1 and the window and ends at the first instant of the next one |
| RateExtremes.TwiceTheLimitIsReached | llm/gateway/app/tenancy/ratelimit.py:76-101 | twice the count is accepted within one window length, with no error and no late INCR, for every count and every window of at least two instants |
| RateExtremes.StartsReachBound | llm/gateway/app/tenancy/ratelimit.py:79-101 | for every limit, window and number of starts a run without errors accepts `count` requests of one window per start, which reaches both bounds on a window |
| RateLimiter.RateLimiter.Enforce | llm/gateway/app/tenancy/ratelimit.py:69-101 | unlimited, malformed, fail-open, unavailable, limited and accepted, with the effect on Redis of each; which limit decides is `RateLimiter.TenantTableDecides` and `RateLimiter.DefaultDecides` |
| RateLimiter.EnforcedIsARun | llm/gateway/app/tenancy/ratelimit.py:69-101 | an uninterrupted request is its three machine steps: same counters, same response, under every fault |
| RateLimiter.RefusedIffWindowFull | llm/gateway/app/tenancy/ratelimit.py:82-101 | after any run, a request is refused exactly when `count` requests of its window came before it |
| RateLimiter.TenantTableDecides | llm/gateway/app/tenancy/ratelimit.py:63-101 | after any run, a request to an endpoint in the tenant's table is let through exactly when fewer than the count written there came before it in its window, whatever the default |
| RateLimiter.DefaultDecides | llm/gateway/app/tenancy/ratelimit.py:20-101 | for an endpoint not in the table the default decides, its count and minute written out |
| RateLimiter.MalformedEntryRaises | llm/gateway/app/tenancy/ratelimit.py:76-79 | a malformed entry in the table raises, whatever the default, and never reaches Redis |
| RateLimiter.RedisDown | llm/gateway/app/tenancy/ratelimit.py:84-94 | when Redis does not take the INCR nothing is counted, and the request goes on or is unavailable |
| RateLimiter.FirstRequestCounts | llm/gateway/app/tenancy/ratelimit.py:81-87 | the first request of a window leaves a counter of one under its key, expiring a window length later |
| RateLimiter.DefaultsNeverMalformed | llm/gateway/app/tenancy/ratelimit.py:63-75 | default limits are never malformed; unknown endpoints and `models` are unlimited |
| Embeddings.SortIsStable | client-sdks/python/vams_llm_client/models.py:53-56 | the sort is ascending by index and stable |
| Embeddings.VectorsOfComplete | client-sdks/python/vams_llm_client/models.py:53-56 | the vectors of a complete answer do not depend on the order of its items |
| EmbeddingCache.EmbeddingCache.Put | client-sdks/python/vams_llm_client/cache.py:46-52 | insert or replace one row |
| EmbeddingCache.KeyParts | client-sdks/python/vams_llm_client/cache.py:30-33 | a key determines the provider, and the text once the model is known |
| EmbeddingCache.ModelsCollideIff | client-sdks/python/vams_llm_client/cache.py:30-33 | two models share a key exactly when equal or one is the other followed by NUL |
| EmbeddingRequests.OrdinaryModelsAgree | client-sdks/python/vams_llm_client/cache.py:3-7 | models without NUL characters are safe: over every run cached calls agree with the provider |
| EmbeddingRequests.KeyWritten | client-sdks/python/vams_llm_client/cache.py:30-33 | a cache key, written out |
| EmbeddingClient.LlmClient.Embed | client-sdks/python/vams_llm_client/client.py:166-201 | the loops over hits, misses and fetched items compute the merge, store the rows and make at most one request, also when an index or a text is wrong |
| EmbeddingRequests.DirectCall | client-sdks/python/vams_llm_client/capabilities.py:11-35 | a direct call asks once, for the provider's model id of the alias, written out, and all texts, and leaves the cache alone |
| EmbeddingRequests.CachedCallAsks | client-sdks/python/vams_llm_client/client.py:177-188 | a cached call asks for exactly the texts without an entry under that id, and not at all when there are none |
| EmbeddingRequests.MissesInOrder | client-sdks/python/vams_llm_client/client.py:178-184 | they are asked for in input order, each as often as it occurs |
| EmbeddingRequests.CannotEmbed | client-sdks/python/vams_llm_client/client.py:169 | every provider but the two that embed raises before anything is asked |
| EmbeddingRequests.AnthropicChats | client-sdks/python/vams_llm_client/capabilities.py:5-27 | the known providers are three, and the alias of the one that only chats |
| EmbeddingRequests.CachedResponseShape | client-sdks/python/vams_llm_client/client.py:194-201 | a cached response names the resolved model and numbers its items in input order |
| EmbeddingRequests.NamesByPosition | client-sdks/python/vams_llm_client/client.py:189-190 | which text an answered index names, negative ones counting from the end, and which raise |
| EmbeddingRequests.ItemsBeforeAreKept | client-sdks/python/vams_llm_client/client.py:188-192 | when an index is out of range the call raises with the items before it stored, the last one about each text |
| EmbeddingAgreement.EmbedKeepsSound | client-sdks/python/vams_llm_client/client.py:180-191 | a call keeps every cache entry equal to the provider's vector, even when the answer is partial or fails |
| EmbeddingAgreement.EmbedGivesVectors | client-sdks/python/vams_llm_client/client.py:166-201 | over a sound cache a call returns each text's vector in input order, cached or not, for any duplicates |
| EmbeddingAgreement.CachedEqualsDirect | client-sdks/python/vams_llm_client/client.py:174-201 | cached and direct calls have equal vectors, the provider answering in any order |
| EmbeddingAgreement.EmbedFailsIff | client-sdks/python/vams_llm_client/client.py:184-200 | a cached call that asks the provider fails exactly when the provider does, when an index is out of range, or when a text is left out |
| EmbeddingAgreement.LastItemCounts | client-sdks/python/vams_llm_client/client.py:188-191 | of several items about one text the last one counts, for the response and the cache |
| EmbeddingAgreement.RepeatIsFree | client-sdks/python/vams_llm_client/client.py:177-201 | an immediate repeat makes no request and returns the same response, whatever the provider answered |
| EmbeddingAgreement.RunSound | client-sdks/python/vams_llm_client/client.py:184-191 | the cache is sound after every run of clients that share it |
| EmbeddingAgreement.AgreementIff | client-sdks/python/vams_llm_client/cache.py:3-7 | cached calls agree with the provider after every run exactly when no model id is another one followed by NUL |
| BackendHealth.RunFollows | llm/gateway/app/backends/base.py:116-135 | for every probe history and threshold: failures are the trailing run, healthy is below the threshold, clients made count the ended outages |
| BackendHealth.ReconnectsBounded | llm/gateway/app/routing/health.py:34-49 | reconnects times (threshold + 1) are at most the probes |
| BackendHealth.OutagesReachBound | llm/gateway/app/routing/health.py:34-49 | that bound is reached, for every threshold and number of outages |
| BackendHealth.ClientsAccountedIff | llm/gateway/app/backends/base.py:141-167 | every client made is exactly one of current, pending, closed once or given up once, exactly in the runs in which a closed backend is neither closed again nor recovers |
| BackendHealth.RunClients | llm/gateway/app/backends/base.py:141-167 | in every run no replaced client leaks, and the current one is never waiting for a close |
| BackendHealth.ClosedAsReturned | llm/gateway/app/backends/base.py:153-167 | a client counts as closed for each close that returned and as given up for each that raised |
| BackendHealth.AcloseLastIsSafe | llm/gateway/app/main.py:70-74 | closing each backend once, after the probes have stopped, keeps every client accounted for |
| HealthChecker.BackendAdapter.RecordHealth | llm/gateway/app/backends/base.py:116-135 | folds one probe into the state and reports exactly the recovery edge |
| HealthChecker.BackendAdapter.Reconnect | llm/gateway/app/backends/base.py:141-151 | swaps in a new client and leaves the old one to its deferred close |
| HealthChecker.HealthChecker.CheckOnce | llm/gateway/app/routing/health.py:34-56 | one round folds each adapter's own probe and nothing else; a probe that raised makes that adapter's failure count one larger, like one that answered no |
| RedisNamespace.NamespaceIffFixed | sdk/basic_infra_redis_client/basic_infra_redis_client/namespace.py:14-26 | namespaces are exactly the names that derive themselves; derivation is idempotent |
| RedisNamespace.DerivedIsNamespace | sdk/basic_infra_redis_client/basic_infra_redis_client/namespace.py:17-26 | a derived name is nonempty over [a-z0-9_], with no underscore at either end |
| RedisNamespace.NamespaceExistsIff | sdk/basic_infra_redis_client/basic_infra_redis_client/namespace.py:23-26 | derivation succeeds exactly for tenants with a letter or digit |
| RedisNamespace.NamespacesDisjoint | sdk/basic_infra_redis_client/basic_infra_redis_client/namespace.py:34-47 | no key is admitted by two namespaces without colons |
| RedisNamespace.AclAdmitsItsKeys | sdk/basic_infra_redis_client/basic_infra_redis_client/namespace.py:34-47 | the ACL pattern admits exactly the keys made by prefixing |
| RedisNamespace.DerivedNamespacesIsolate | sdk/basic_infra_redis_client/basic_infra_redis_client/namespace.py:29-47 | keys determine derived namespace and name, and users are as distinct as namespaces |
| NamesWritten.CaseDoesNotMatter | sdk/basic_infra_redis_client/basic_infra_redis_client/namespace.py:17-31 | a name and the same name with letters capitalised have the same namespace, user and SDK database |
| NamesWritten.UnitCaseDoesNotMatter | llm/gateway/app/tenancy/ratelimit.py:42-43 | neither does the case of a limit's unit |
| NamesWritten.RunIsOneUnderscore | sdk/basic_infra_redis_client/basic_infra_redis_client/namespace.py:14-26 | two namespaces joined by any run of other characters derive the namespace in which the run is one underscore |
| NamesWritten.JunkBecomesUnderscore | sdk/basic_infra_redis_client/basic_infra_redis_client/namespace.py:14-26 | three spellings of one name, written out |
| NamesWritten.MyTenant | sdk/basic_infra_redis_client/basic_infra_redis_client/namespace.py:17-47 | a namespace, a user and a key, written out |
| TenantDatabase.DatabaseNamesAre | postgres/_port.py:22-50 | the names produced are exactly the identifiers of that shape, at most 63 long; the length check never fails |
| TenantDatabase.DatabaseNameInjective | postgres/_port.py:29-50 | a database name gives back its tenant |
| NamesWritten.TenantsWritten | postgres/_port.py:22-26 | the tenant pattern character by character |
| NamesWritten.PlainNames | postgres/_port.py:29-50 | a tenant without adjacent hyphens: namespace, database and SDK database are its name with underscores for hyphens |
| NamesWritten.DocumentedDatabases | postgres/_port.py:29-50 | the documented examples |
| TenantDatabase.PostgresSettings.constructor | sdk/basic_infra_postgres_client/basic_infra_postgres_client/config.py:59-71 | both validators: an explicit database wins over the derived one, managed instances get TLS unless a mode is given |
| TenantDatabase.SdkAgreesIff | sdk/basic_infra_postgres_client/basic_infra_postgres_client/config.py:59-65 | the SDK's derived database is the platform's exactly for valid tenants |
| TenantDatabase.SdkReaches | sdk/basic_infra_postgres_client/basic_infra_postgres_client/config.py:59-65 | which unchecked tenant names lead the SDK into a given tenant's database |
| TenantDatabase.NamespaceOfTenant | sdk/basic_infra_redis_client/basic_infra_redis_client/namespace.py:17-26 | a valid tenant's namespace is its name with each run of hyphens made one underscore |
| TenantDatabase.NamespaceIsDatabaseIff | sdk/basic_infra_redis_client/basic_infra_redis_client/namespace.py:17-26 | namespace and database coincide exactly without two adjacent hyphens |
| TenantDatabase.NamespacesCollideIff | sdk/basic_infra_redis_client/basic_infra_redis_client/namespace.py:17-26 | two valid tenants share a namespace exactly when they have the same words between their hyphens |
| TenantDatabase.OwnsNamespaceIff | sdk/basic_infra_redis_client/basic_infra_redis_client/namespace.py:17-26 | a valid tenant has its namespace to itself exactly when it has no hyphen, or has length 63 and no two adjacent hyphens |
| TenantDatabase.PlainTenantsIsolated | sdk/basic_infra_redis_client/basic_infra_redis_client/namespace.py:17-26 | tenants without two adjacent hyphens have namespaces of their own |
| TenantDatabase.OneNamespaceTwoDatabases | postgres/_port.py:29-50 | two valid tenants with two databases and one Redis namespace |

## Left out

- Presigned URLs, timestamps in blob metadata, symbolic links, permissions and configuration errors of the blob stores.
- Two puts to the same key at the same time: they share one temporary file.
- A crash inside `makedirs`, and a partly written sidecar other than the empty one; loss of power after a rename.
- Filesystem `list` for a tenant id with `..` or an absolute one: the source joins it to the root unchecked, the model lists below the root only.
- Etags and list order across adapters, and service failures of S3 (`BlobStoreUnavailable`): the object store of the model always answers, and reports no content type when none was given.
- `FilesystemAdapter.Adapter.List` and `S3Adapter.Adapter.List` return everything at once: no state of the store changes during a listing.
- Task cancellation at an await, and operations still using a client while another task closes it; the lock is served in any order.
- Several dispatcher instances; the database errors of a scan count as a crash; the sink's own failures count as a crash before the delivery.
- `list` of tenants, `generate_api_key`, and reuse of an issued key: generated keys are taken to be fresh.
- Limits of the platform beneath: file names with NUL or longer than 255 bytes, which the file system refuses, and `int()` of more than 4300 digits, which Python refuses.
- The checks the settings class makes before its validators run, such as a nonempty tenant.
- Clocks that go back, time passing inside one store or authenticator call, and the difference between the authenticator's monotonic clock and the store's wall clock.
- Expiry of Redis counters is a comparison with the clock; eviction under memory pressure and fail-over that loses counters are not modelled.
- Non-ASCII digits, which `isdigit` accepts, Unicode lower-casing and white space.
- A single string given to `create` in place of a list is a list of one text; the embeddings' floats are exact reals.
- The model name in a response: cached and direct calls are compared by their vectors.
- `start` and `stop` of the health checker, logging, and the interval between rounds.
- Routes, routing, reranking, HTTP backends, provisioning of databases and ACLs, and the command line: they hold no state of their own or live in PostgreSQL and Redis.
