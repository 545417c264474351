# Terraform HTTP state backend: the locking state machine

A model of the core of terraform-generic-http-backend, a Kotlin service that
stores Terraform remote states over the HTTP backend protocol. Every project
has one stored State record. That record holds the uploaded state document,
its version, serial and client version, and three lock fields: `locked`,
`lockId` and the stored lock descriptor `lockInfo`. A client locks the record
with a descriptor, writes under the descriptor's id, and unlocks (or
force-unlocks) it. Every refusal is a typed failure, which the HTTP exception
mapper turns into a status code.

The model has three implementations of this state machine, and each storage
operation is proved against one step function:

- **Relational store.** `DatabaseAdapter` is a class over the repository
  `DatabaseRepository.TerraformStateRepository`, whose table is a field of
  type `map` that its methods update column by column. Both are in
  `database_adapter.dfy`, `database_repository.dfy` and `storage_contract.dfy`.
- **Document store.** `ElasticAdapter` is a class over
  `ElasticsearchService.ElasticsearchStateService`, whose index is a `map`
  that whole-document writes update. This is in `elastic_adapter.dfy` and
  `elasticsearch_service.dfy`. The service also has the scroll loop of
  `listAll`/`paginate`, modelled as a `while` loop appending to a mutable list,
  and the page-offset arithmetic.
- **The older resource.** `StateResource.TerraformStateResource` runs the same
  machine on `LegacyRepository.TerraformStateRepository`, whose `lock` and
  `unlock` assign the fields of a mutable `StateEntity` in place and return it.

This is how the parts fit together:

- The lock guards and the record constructor are pure functions
  (`extensions.dfy`).
- The status-code mapping is one function (`exception_mapper.dfy`).
- `protocol.dfy` dispatches the five HTTP requests over all three stores and
  proves the properties that span requests:
  - the invariant `locked <==> lockId present <==> lockInfo present` (with the
    descriptor's path naming the project) is preserved by every sequence of
    requests, provided the relational store's lock requests carry a
    descriptor id;
  - a held lock is exclusive;
  - lock/unlock and write/read round trips hold;
  - some cases get different status codes from different stores.

JSON serialization is taken as the identity. A stored `lockInfo` is the
descriptor itself, and a stored `state` is the uploaded document itself.
`lastModified` is an opaque clock tick passed in by the caller.

The source files do not all come from one revision. Where they do not fit
together, the model follows the code that runs:

- `DatabaseAdapter.kt` imports its guards and `toInternal` from
  `http/extension`, which in this revision defines no guards. The model gives
  it the guards of `util/Extensions.kt`.
- `TerraformStateResource.kt` calls the four-argument `toInternal` with the
  signature of `util/Extensions.kt`. Its older record type has no `state`
  column. The model uses the one State record for both. The older
  `createAndLock` (`repository/TerraformStateRepository.kt:70-86`) never
  assigns `version` or `serial`, so with that record type's defaults
  (`model/State.kt:16,18`) it would store 0 and 0. The model stores the
  version 4 and serial 1 of the relational `createAndLock` instead.
- `DatabaseAdapter.kt` and `TerraformStateResource.kt` raise
  `javax.ws.rs.BadRequestException`, the framework's class, because that is
  what they import. `ElasticAdapter.kt` raises the project's own. The mapper
  recognises only the project's class, so the framework's one reaches its 500
  branch (`FrameworkBadRequest` in the model; see `Protocol.BadRequestStatus`).
- The resource's private guards (`TerraformStateResource.kt:278-294`) take
  the same decisions as those of `util/Extensions.kt`, so the model uses the
  latter for both.
- A `!!` on a missing descriptor id (a NullPointerException in Kotlin) is the
  failure `NullDescriptorId`. A stored record that is locked but has no
  descriptor makes the JSON reader fail; that is `UnreadableDescriptor`.
  Neither is translated, so both answer 500.

The code and its test files disagree in several places. The model follows the
code:

- `DatabaseAdapterTest.kt:546-563` expects BadRequest when an absent project
  is unlocked. `DatabaseAdapter.kt:135-137` answers Conflict carrying the
  caller's descriptor (`StorageContract.UnlockStep`).
- `DatabaseAdapterTest.kt:434-450` expects Locked when a locked record is
  deleted. `DatabaseAdapter.kt:85-98` passes the guard's AlreadyLocked on, and
  that answers 500 (`Protocol.DeleteLockedStatus`).
- The tests call `paginate` on both adapters. Neither adapter, nor the
  interface in `StorageAdapter.kt:7-23`, defines it.
- The tests expect the project's own BadRequestException from the relational
  adapter. The code raises the framework's.

Other points the code makes that a reader might not expect:

- The relational `lock` returns a copy whose `tfVersion` is the
  descriptor's version, but the row it writes keeps its old `tfVersion`.
  `DatabaseRepository.TerraformStateRepository.Lock` states both.
- The relational `createAndLock` and the relational `lock` both copy the
  descriptor id without `!!`. So a lock request whose descriptor has no id
  stores a locked record without a lock id: on an absent project through
  `createAndLock` (`Protocol.RelationalLockWithoutId`), and on an existing
  unlocked record through `lock` (`Protocol.RelationalLockOfUnlockedWithoutId`).
  The invariant therefore needs the relational store's lock requests to carry
  an id (`Protocol.RunKeepsStoreValid`).
- Unlock never sets `lastModified`.
- A write without a lock id always succeeds, and it unlocks the record.

## Model

| member | source | states |
|---|---|---|
| Records.PathRewritten | src/main/kotlin/fr/sedona/terraform/storage/database/repository/TerraformStateRepository.kt:64-66 | the persisted descriptor has its path replaced by the project name and is otherwise the caller's descriptor |
| Records.DefaultPayload | src/main/kotlin/fr/sedona/terraform/storage/database/repository/TerraformStateRepository.kt:69-76 | the default document has version 4, serial 1, the descriptor's client version, and no lineage, outputs or resources |
| Records.FreshLockedRecord | src/main/kotlin/fr/sedona/terraform/storage/database/repository/TerraformStateRepository.kt:77-86 | the created record is named after the project, is locked with the descriptor's id and its descriptor with the path rewritten, and has version 4, serial 1, the descriptor's client version and the default document; it satisfies the lock invariant iff the descriptor has an id |
| Records.WithLock | src/main/kotlin/fr/sedona/terraform/storage/database/repository/TerraformStateRepository.kt:103-106 | locking sets lastModified, locked, lockId and the rewritten descriptor, and every other field is kept; on a record of that project with a descriptor id the result satisfies the invariant |
| Records.WithLockAndVersion | src/main/kotlin/fr/sedona/terraform/storage/database/repository/TerraformStateRepository.kt:109-115 | the returned copy also takes the descriptor's client version and otherwise equals the locked row |
| Records.Unlocked | src/main/kotlin/fr/sedona/terraform/storage/database/repository/TerraformStateRepository.kt:121-128 | unlocking clears locked, lockId and lockInfo together, keeps every other field, and always satisfies the invariant |
| Extensions.ToInternal | src/main/kotlin/fr/sedona/terraform/util/Extensions.kt:13-30 | the built record is named after the project, is locked iff a descriptor is given, copies lockId and lockInfo verbatim, and copies version, client version and serial from the document, which it stores |
| Extensions.ToInternalWithLock | src/main/kotlin/fr/sedona/terraform/util/Extensions.kt:32-38 | with no descriptor the record is unlocked with no lock id or descriptor (and valid); with one, its lock id is the descriptor's id and its descriptor is that one |
| Extensions.StoredDescriptor | src/main/kotlin/fr/sedona/terraform/util/Extensions.kt:50 | reading the stored descriptor succeeds iff there is one, and fails otherwise |
| Extensions.EnsureIsNotLocked | src/main/kotlin/fr/sedona/terraform/util/Extensions.kt:48-52 | passes iff the record is not locked; otherwise fails AlreadyLocked carrying the stored descriptor |
| Extensions.EnsureIsLocked | src/main/kotlin/fr/sedona/terraform/util/Extensions.kt:54-58 | fails NotLocked, which carries nothing, iff the record is not locked |
| Extensions.EnsureLockOwnership | src/main/kotlin/fr/sedona/terraform/util/Extensions.kt:60-64 | passes iff the stored lock id is the supplied one; otherwise fails LockMismatch carrying the stored descriptor, not the caller's |
| Extensions.GuardsOnValidRecord | src/main/kotlin/fr/sedona/terraform/util/Extensions.kt:48-64 | on a valid record the guards only ever fail with the stored descriptor, and an ownership check on an unlocked record cannot read one |
| ExceptionMapper.ToResponse | src/main/kotlin/fr/sedona/terraform/http/exception/HttpExceptionMapper.kt:15-45 | 400 iff BadRequest, 404 iff NotFound (body naming the project), 409 iff Conflict, 423 iff Locked (both with the carried descriptor as body), and 500 with the generic message otherwise |
| ExceptionMapper.UntranslatedFailuresAre500 | src/main/kotlin/fr/sedona/terraform/http/exception/HttpExceptionMapper.kt:38-43 | the guards' own failures, the framework's bad request, a missing descriptor id and a missing element all answer 500 |
| DatabaseRepository.TerraformStateRepository.FindByIdOptional | src/main/kotlin/fr/sedona/terraform/storage/adapter/DatabaseAdapter.kt:36 | the row of the project if there is one, and none otherwise |
| DatabaseRepository.TerraformStateRepository.Add | src/main/kotlin/fr/sedona/terraform/storage/database/repository/TerraformStateRepository.kt:27-32 | inserts the record under its name and changes no other row |
| DatabaseRepository.TerraformStateRepository.Update | src/main/kotlin/fr/sedona/terraform/storage/database/repository/TerraformStateRepository.kt:34-51 | the row with the record's name becomes the record (every non-key column overwritten); no row, no change |
| DatabaseRepository.TerraformStateRepository.Delete | src/main/kotlin/fr/sedona/terraform/storage/database/repository/TerraformStateRepository.kt:53-58 | removes exactly the row of that name |
| DatabaseRepository.TerraformStateRepository.CreateAndLock | src/main/kotlin/fr/sedona/terraform/storage/database/repository/TerraformStateRepository.kt:60-90 | inserts and returns the fresh locked record, and no other row changes |
| DatabaseRepository.TerraformStateRepository.Lock | src/main/kotlin/fr/sedona/terraform/storage/database/repository/TerraformStateRepository.kt:92-116 | the row gets only lastModified, locked, lockId and the rewritten descriptor; the returned copy of the given record also carries the descriptor's client version |
| DatabaseRepository.TerraformStateRepository.Unlock | src/main/kotlin/fr/sedona/terraform/storage/database/repository/TerraformStateRepository.kt:118-129 | the row and the returned copy have their three lock fields cleared and nothing else changed |
| StorageContract.FindByIdStep | src/main/kotlin/fr/sedona/terraform/storage/adapter/DatabaseAdapter.kt:33-41 | the stored record, or NotFound carrying the project name; the store is unchanged |
| StorageContract.UpdateWithLockStep | src/main/kotlin/fr/sedona/terraform/storage/adapter/DatabaseAdapter.kt:43-69 | succeeds iff the project is absent (then a new unlocked record is written, whatever lock id was given) or the caller holds the lock (then the document is replaced and the lock kept); an unlocked record gives the bad request; another holder gives Locked with the stored descriptor; a refusal writes nothing; no other project changes |
| StorageContract.UpdateWithoutLockStep | src/main/kotlin/fr/sedona/terraform/storage/adapter/DatabaseAdapter.kt:71-83 | always succeeds and writes the document unlocked, whatever lock was held; no other project changes |
| StorageContract.DeleteStep | src/main/kotlin/fr/sedona/terraform/storage/adapter/DatabaseAdapter.kt:85-98 | succeeds iff the record exists unlocked, and then removes exactly it; absent gives NotFound; locked gives the untranslated AlreadyLocked and the record stays |
| StorageContract.UnlockStep | src/main/kotlin/fr/sedona/terraform/storage/adapter/DatabaseAdapter.kt:121-147 | succeeds iff the descriptor's id holds the lock, and then clears the three lock fields; absent or unlocked gives Conflict with the caller's descriptor; a missing id gives NullDescriptorId; another holder gives Locked with the stored descriptor; a refusal writes nothing |
| StorageContract.ForceUnlockStep | src/main/kotlin/fr/sedona/terraform/storage/adapter/DatabaseAdapter.kt:149-161 | succeeds iff the record exists, and clears its lock with no check; absent gives the bad request and writes nothing |
| DatabaseAdapter.DbLockStep | src/main/kotlin/fr/sedona/terraform/storage/adapter/DatabaseAdapter.kt:100-119 | succeeds iff the project is absent (fresh locked record) or unlocked (lock fields set; document, version, serial and client version kept); a held lock gives Locked with the stored descriptor, never the caller's, and writes nothing |
| DatabaseAdapter.DatabaseAdapter.FindById | src/main/kotlin/fr/sedona/terraform/storage/adapter/DatabaseAdapter.kt:33-41 | answers as FindByIdStep |
| DatabaseAdapter.DatabaseAdapter.UpdateWithLock | src/main/kotlin/fr/sedona/terraform/storage/adapter/DatabaseAdapter.kt:43-69 | reply and new table are those of UpdateWithLockStep with the framework's bad request |
| DatabaseAdapter.DatabaseAdapter.UpdateWithoutLock | src/main/kotlin/fr/sedona/terraform/storage/adapter/DatabaseAdapter.kt:71-83 | reply and new table are those of UpdateWithoutLockStep |
| DatabaseAdapter.DatabaseAdapter.Delete | src/main/kotlin/fr/sedona/terraform/storage/adapter/DatabaseAdapter.kt:85-98 | reply and new table are those of DeleteStep |
| DatabaseAdapter.DatabaseAdapter.Lock | src/main/kotlin/fr/sedona/terraform/storage/adapter/DatabaseAdapter.kt:100-119 | reply and new table are those of DbLockStep |
| DatabaseAdapter.DatabaseAdapter.Unlock | src/main/kotlin/fr/sedona/terraform/storage/adapter/DatabaseAdapter.kt:121-147 | reply and new table are those of UnlockStep |
| DatabaseAdapter.DatabaseAdapter.ForceUnlock | src/main/kotlin/fr/sedona/terraform/storage/adapter/DatabaseAdapter.kt:149-161 | reply and new table are those of ForceUnlockStep with the framework's bad request |
| ElasticsearchService.Sources | src/main/kotlin/fr/sedona/terraform/storage/elasticsearch/service/ElasticsearchStateService.kt:267-271 | one record per hit, each hit's source, in hit order |
| ElasticsearchService.ScrollGuard | src/main/kotlin/fr/sedona/terraform/storage/elasticsearch/service/ElasticsearchStateService.kt:248 | the loop guard `total > (k+1)*pageSize` holds iff k is below ceil(total/pageSize) - 1 (zero within one page) |
| ElasticsearchService.ScrollCoversTotal | src/main/kotlin/fr/sedona/terraform/storage/elasticsearch/service/ElasticsearchStateService.kt:246-259 | beyond one page, the first page and the continuations fetched span at least the count, and the last continuation starts below it |
| ElasticsearchService.Int32 | src/main/kotlin/fr/sedona/terraform/storage/elasticsearch/service/ElasticsearchStateService.kt:75 | Kotlin Int arithmetic wraps into [-2^31, 2^31) and is exact inside that range |
| ElasticsearchService.PaginateFromIsPageOffset | src/main/kotlin/fr/sedona/terraform/storage/elasticsearch/service/ElasticsearchStateService.kt:75 | without overflow the offset `pageSize*pageIndex - pageSize` is (pageIndex-1)*pageSize, and not negative |
| ElasticsearchService.PaginateFromOverflows | src/main/kotlin/fr/sedona/terraform/storage/elasticsearch/service/ElasticsearchStateService.kt:75 | page 3 of size 2^30 wraps to the offset -2^31 |
| ElasticsearchService.PageCanExceedRequestedSize | src/main/kotlin/fr/sedona/terraform/storage/elasticsearch/service/ElasticsearchStateService.kt:72-92 | paginate appends scroll continuations whenever the count exceeds the requested size, and the configured size decides how many: with size 1 asked for, five records stored and one-hit continuations, the answer holds 5 records under a configured size of 1, 3 under 2, and 1 under 500 |
| ElasticsearchService.StateList.AddAll | src/main/kotlin/fr/sedona/terraform/storage/elasticsearch/service/ElasticsearchStateService.kt:257 | appends the elements in order |
| ElasticsearchService.ElasticsearchStateService.ExtractResultPage | src/main/kotlin/fr/sedona/terraform/storage/elasticsearch/service/ElasticsearchStateService.kt:264-273 | exactly the hits' records, as many as hits, in hit order |
| ElasticsearchService.ElasticsearchStateService.LoopOnScroll | src/main/kotlin/fr/sedona/terraform/storage/elasticsearch/service/ElasticsearchStateService.kt:246-259 | appends the records of the first ceil(total/pageSize) - 1 continuations, in order, to the list, with the configured page size |
| ElasticsearchService.ElasticsearchStateService.ListAll | src/main/kotlin/fr/sedona/terraform/storage/elasticsearch/service/ElasticsearchStateService.kt:51-70 | the first page's records, then the continuations' records in order, which are fetched only when the count exceeds the page size |
| ElasticsearchService.ElasticsearchStateService.Paginate | src/main/kotlin/fr/sedona/terraform/storage/elasticsearch/service/ElasticsearchStateService.kt:72-92 | the offset is the wrapped `pageSize*pageIndex - pageSize`; the records are the page, then, when the count exceeds the requested size, the continuations counted with the configured size |
| ElasticsearchService.ElasticsearchStateService.Get | src/main/kotlin/fr/sedona/terraform/storage/elasticsearch/service/ElasticsearchStateService.kt:114-126 | the stored document of the project iff there is one; NoSuchElement otherwise |
| ElasticsearchService.ElasticsearchStateService.Update | src/main/kotlin/fr/sedona/terraform/storage/elasticsearch/service/ElasticsearchStateService.kt:94-112 | the document under the record's name becomes the record (created or replaced whole); no other document changes |
| ElasticsearchService.ElasticsearchStateService.Delete | src/main/kotlin/fr/sedona/terraform/storage/elasticsearch/service/ElasticsearchStateService.kt:128-136 | removes exactly the document of that name |
| ElasticsearchService.ElasticsearchStateService.Lock | src/main/kotlin/fr/sedona/terraform/storage/elasticsearch/service/ElasticsearchStateService.kt:138-158 | returns and writes the given record locked with the rewritten descriptor, its id and client version and a new lastModified, all else kept; a missing id fails before anything is written |
| ElasticsearchService.ElasticsearchStateService.Unlock | src/main/kotlin/fr/sedona/terraform/storage/elasticsearch/service/ElasticsearchStateService.kt:160-171 | returns and writes the given record with its three lock fields cleared, its document and all else kept |
| ElasticsearchService.ElasticsearchStateService.CreateAndLock | src/main/kotlin/fr/sedona/terraform/storage/elasticsearch/service/ElasticsearchStateService.kt:173-202 | writes and returns the fresh locked record with the default document; a missing id fails before anything is written |
| ElasticAdapter.EsDeleteStep | src/main/kotlin/fr/sedona/terraform/storage/adapter/ElasticAdapter.kt:81-97 | succeeds iff the document exists unlocked, and then removes exactly it; absent gives NotFound; locked gives Locked with the stored descriptor and the document stays |
| ElasticAdapter.EsLockStep | src/main/kotlin/fr/sedona/terraform/storage/adapter/ElasticAdapter.kt:99-117 | succeeds iff the project is absent or unlocked and the descriptor has an id; the record is then locked with the descriptor's client version, keeping document, version and serial; a missing id gives NullDescriptorId; a held lock gives Locked with the stored descriptor; a refusal writes nothing |
| ElasticAdapter.ElasticAdapter.FindById | src/main/kotlin/fr/sedona/terraform/storage/adapter/ElasticAdapter.kt:31-38 | answers as FindByIdStep |
| ElasticAdapter.ElasticAdapter.UpdateWithLock | src/main/kotlin/fr/sedona/terraform/storage/adapter/ElasticAdapter.kt:40-65 | reply and new index are those of UpdateWithLockStep with the project's own bad request |
| ElasticAdapter.ElasticAdapter.UpdateWithoutLock | src/main/kotlin/fr/sedona/terraform/storage/adapter/ElasticAdapter.kt:67-79 | reply and new index are those of UpdateWithoutLockStep |
| ElasticAdapter.ElasticAdapter.Delete | src/main/kotlin/fr/sedona/terraform/storage/adapter/ElasticAdapter.kt:81-97 | reply and new index are those of EsDeleteStep |
| ElasticAdapter.ElasticAdapter.Lock | src/main/kotlin/fr/sedona/terraform/storage/adapter/ElasticAdapter.kt:99-117 | reply and new index are those of EsLockStep |
| ElasticAdapter.ElasticAdapter.Unlock | src/main/kotlin/fr/sedona/terraform/storage/adapter/ElasticAdapter.kt:119-145 | reply and new index are those of UnlockStep |
| ElasticAdapter.ElasticAdapter.ForceUnlock | src/main/kotlin/fr/sedona/terraform/storage/adapter/ElasticAdapter.kt:147-159 | reply and new index are those of ForceUnlockStep with the project's own bad request |
| LegacyRepository.TerraformStateRepository.FindById | src/main/kotlin/fr/sedona/terraform/repository/TerraformStateRepository.kt:25-27 | a fresh entity holding the stored record iff there is one; NoSuchElement otherwise |
| LegacyRepository.TerraformStateRepository.FindByLockId | src/main/kotlin/fr/sedona/terraform/repository/TerraformStateRepository.kt:20-23 | none iff no record has that lock id; otherwise a stored record with that lock id |
| LegacyRepository.TerraformStateRepository.Add | src/main/kotlin/fr/sedona/terraform/repository/TerraformStateRepository.kt:29-34 | inserts the record under its name |
| LegacyRepository.TerraformStateRepository.Update | src/main/kotlin/fr/sedona/terraform/repository/TerraformStateRepository.kt:36-52 | the row with the record's name becomes the record; no row, no change |
| LegacyRepository.TerraformStateRepository.Delete | src/main/kotlin/fr/sedona/terraform/repository/TerraformStateRepository.kt:54-59 | removes exactly the row of that name |
| LegacyRepository.TerraformStateRepository.CreateAndLock | src/main/kotlin/fr/sedona/terraform/repository/TerraformStateRepository.kt:61-90 | with a descriptor id, persists and returns a fresh entity holding the fresh locked record; without one, fails and persists nothing |
| LegacyRepository.TerraformStateRepository.Lock | src/main/kotlin/fr/sedona/terraform/repository/TerraformStateRepository.kt:92-113 | with an id, the handed entity itself is locked in place (lock fields, client version, lastModified) and returned, and the row gets only lastModified and the lock fields; without one, the entity is left with lastModified and locked set and the table is untouched |
| LegacyRepository.TerraformStateRepository.Unlock | src/main/kotlin/fr/sedona/terraform/repository/TerraformStateRepository.kt:115-125 | the handed entity itself has its lock fields cleared in place and is returned; so does the row |
| StateResource.LegacyLockStep | src/main/kotlin/fr/sedona/terraform/http/TerraformStateResource.kt:176-200 | succeeds iff the project is absent or unlocked and the descriptor has an id; a missing id gives NullDescriptorId; a held lock gives Locked with the stored descriptor; a refusal writes nothing |
| StateResource.LegacyLockAgreesWithAdapter | src/main/kotlin/fr/sedona/terraform/http/TerraformStateResource.kt:176-200 | with a descriptor id the resource locks exactly as the relational adapter; without one it refuses where the adapter writes |
| StateResource.TerraformStateResource.GetState | src/main/kotlin/fr/sedona/terraform/http/TerraformStateResource.kt:47-61 | answers as FindByIdStep |
| StateResource.TerraformStateResource.UpdateState | src/main/kotlin/fr/sedona/terraform/http/TerraformStateResource.kt:63-76 | takes the locked write path iff a lock id is supplied, and the unlocked one otherwise |
| StateResource.TerraformStateResource.UpdateStateWithLockId | src/main/kotlin/fr/sedona/terraform/http/TerraformStateResource.kt:78-111 | reply and new table are those of UpdateWithLockStep with the framework's bad request |
| StateResource.TerraformStateResource.UpdateStateWithoutLockId | src/main/kotlin/fr/sedona/terraform/http/TerraformStateResource.kt:113-130 | reply and new table are those of UpdateWithoutLockStep |
| StateResource.TerraformStateResource.DeleteState | src/main/kotlin/fr/sedona/terraform/http/TerraformStateResource.kt:132-154 | reply and new table are those of DeleteStep: a locked record raises the uncaught AlreadyLocked and stays |
| StateResource.TerraformStateResource.LockState | src/main/kotlin/fr/sedona/terraform/http/TerraformStateResource.kt:156-164 | the LOCK verb answers as LegacyLockStep |
| StateResource.TerraformStateResource.LockStateAlternative | src/main/kotlin/fr/sedona/terraform/http/TerraformStateResource.kt:166-174 | POST /lock answers as LegacyLockStep, identically to the LOCK verb |
| StateResource.TerraformStateResource.DoLockState | src/main/kotlin/fr/sedona/terraform/http/TerraformStateResource.kt:176-200 | reply and new table are those of LegacyLockStep |
| StateResource.TerraformStateResource.UnlockState | src/main/kotlin/fr/sedona/terraform/http/TerraformStateResource.kt:202-214 | force-unlocks iff no descriptor is sent, and unlocks with the descriptor otherwise |
| StateResource.TerraformStateResource.UnlockStateAlternative | src/main/kotlin/fr/sedona/terraform/http/TerraformStateResource.kt:216-228 | the same dispatch as the UNLOCK verb |
| StateResource.TerraformStateResource.DoUnlockState | src/main/kotlin/fr/sedona/terraform/http/TerraformStateResource.kt:230-259 | reply and new table are those of UnlockStep |
| StateResource.TerraformStateResource.DoForceUnlockState | src/main/kotlin/fr/sedona/terraform/http/TerraformStateResource.kt:261-276 | reply and new table are those of ForceUnlockStep with the framework's bad request |
| Protocol.BadRequestOf | src/main/kotlin/fr/sedona/terraform/storage/adapter/DatabaseAdapter.kt:19 | only the document-store adapter raises the project's own bad request |
| Protocol.Apply | src/main/kotlin/fr/sedona/terraform/http/TerraformStateResource.kt:65-76 | under the resource's dispatch, a refused request writes nothing, a read writes nothing, and no request changes another project's record |
| Protocol.ApplyKeepsRecordValid | src/main/kotlin/fr/sedona/terraform/storage/elasticsearch/service/ElasticsearchStateService.kt:150 | every request leaves the record of its project satisfying the lock invariant, given it did before (the relational store also needs lock descriptors with ids) |
| Protocol.ApplyKeepsStoreValid | src/main/kotlin/fr/sedona/terraform/repository/TerraformStateRepository.kt:74 | every request preserves the lock invariant of the whole store, provided that on the relational store a lock request's descriptor carries an id (`CarriesId`) |
| Protocol.RunKeepsStoreValid | src/main/kotlin/fr/sedona/terraform/storage/adapter/DatabaseAdapter.kt:43-161 | any sequence of requests preserves `locked <==> lockId present <==> lockInfo present`, with the descriptor's own id and the project's path, provided that on the relational store every lock request's descriptor carries an id (`CarriesId`) |
| Protocol.HolderKeepsLock | src/main/kotlin/fr/sedona/terraform/storage/adapter/ElasticAdapter.kt:40-159 | while an id holds a lock, any request other than its unlock, a force unlock or a write without lock id leaves the lock and its descriptor in place |
| Protocol.HolderKeepsLockOverRun | src/main/kotlin/fr/sedona/terraform/storage/adapter/ElasticAdapter.kt:40-159 | the same over any sequence of such requests |
| Protocol.SecondLockIsRefused | src/main/kotlin/fr/sedona/terraform/storage/adapter/DatabaseAdapter.kt:100-119 | on every store, locking a locked record writes nothing and answers 423 with the holder's descriptor |
| Protocol.LockUnlockRoundTrip | src/main/kotlin/fr/sedona/terraform/storage/database/repository/TerraformStateRepository.kt:92-129 | lock then unlock with one descriptor restores an unlocked record but for lastModified (and, in the document store, the client version) |
| Protocol.WriteThenRead | src/main/kotlin/fr/sedona/terraform/storage/adapter/DatabaseAdapter.kt:43-69 | after the holder's write, a read returns the uploaded document, still under the same lock id and descriptor |
| Protocol.WriteWithoutLockIdUnlocks | src/main/kotlin/fr/sedona/terraform/storage/adapter/DatabaseAdapter.kt:71-83 | a write without lock id always succeeds and leaves the record unlocked |
| Protocol.ForceUnlockIdempotent | src/main/kotlin/fr/sedona/terraform/storage/adapter/DatabaseAdapter.kt:149-161 | a second force unlock changes nothing |
| Protocol.NoRequestRemovesLockedRecord | src/main/kotlin/fr/sedona/terraform/storage/adapter/DatabaseAdapter.kt:85-98 | no request on any store removes a locked record |
| Protocol.DocumentLockRecordsVersion | src/main/kotlin/fr/sedona/terraform/storage/elasticsearch/service/ElasticsearchStateService.kt:138-158 | with a descriptor id the document store locks as the relational one but also records the client version on an existing record |
| Protocol.RelationalLockWithoutId | src/main/kotlin/fr/sedona/terraform/storage/database/repository/TerraformStateRepository.kt:77-85 | a lock without descriptor id turns a valid empty table into one holding a locked record with no lock id, while the other stores refuse and write nothing |
| Protocol.RelationalLockOfUnlockedWithoutId | src/main/kotlin/fr/sedona/terraform/storage/database/repository/TerraformStateRepository.kt:93-116 | a lock without descriptor id on a valid unlocked record answers Done on the relational store and leaves a locked record with no lock id, while the other stores refuse with the NullPointerException and write nothing |
| Protocol.DeleteLockedStatus | src/main/kotlin/fr/sedona/terraform/storage/adapter/DatabaseAdapter.kt:85-98 | deleting a locked record answers 423 on the document store and 500 on the relational store and the older resource |
| Protocol.BadRequestStatus | src/main/kotlin/fr/sedona/terraform/storage/adapter/DatabaseAdapter.kt:157-160 | force-unlocking an absent project answers 400 on the document store and 500 elsewhere |
| Protocol.UnlockWithoutLockIsConflict | src/main/kotlin/fr/sedona/terraform/storage/adapter/DatabaseAdapter.kt:135-141 | unlocking an absent or unlocked project writes nothing and answers 409 with the caller's descriptor |

## Left out

- `listAll` of the relational adapter (`DatabaseAdapter.kt:28-31`) streams every row in the library's order. The relational `paginate` uses the library's page convention. The ElasticAdapter's `listAll` only delegates to the service's, which is modelled. The resource's `listAllStates` is a JSON conversion of every row.
- JSON (de)serialization: `toTerraform`, `http/extension/Extensions.kt`, the ObjectMapper customisation. The stored descriptor and document are the values themselves.
- Raw REST I/O: building requests, parsing replies, the scroll id handle, `countAllStates`, index creation, and the `acknowledged` check on delete. The count and the pages of hits are inputs.
- ElasticsearchService.ElasticsearchStateService.Update: the source tests whether the write reply is "created" or "updated" only to choose between two log lines, so the model leaves that test out.
- ElasticsearchService.ElasticsearchStateService.LoopOnScroll: the guard `(pageIndex + 1) * pageSize` is computed without 32-bit wrap-around, and a configured page size below 1 is excluded by a requires. With 0 the source loops forever.
- LegacyRepository.TerraformStateRepository.Lock: the source reads the clock twice, once for the entity and once for the row. The model uses one tick for both.
- The persistence library's transaction semantics: the long-lived entity's changes being flushed at commit, and rollback after a failure. Only the explicit field-scoped updates change the table.
- Persisting a name that already exists is excluded by the requires of `DatabaseRepository.TerraformStateRepository.Add` and `CreateAndLock` and of `LegacyRepository.TerraformStateRepository.Add` and `CreateAndLock` (the document store's `CreateAndLock` is a whole-document PUT and needs none). Their callers reach them only after a failed lookup, so they only persist absent names.
- Concurrency: each request is one atomic step. The read-then-write race between concurrent requests is not modelled.
- Dependency injection and configuration wiring (`StorageConfig.kt`), the HTTP annotations, logging and response building.
- Clock values: `lastModified` is an opaque tick given by the caller.
