# ragkb: upload, delivery, tenancy and session protocols in Dafny

ragkb is a document service. A file arrives in parts, is merged in MinIO, becomes a row in MySQL,
and is announced on Kafka for ingestion. Redis holds a progress bitmap per upload and the live
refresh tokens. No transaction spans these stores; what holds together does so because of the order
of the calls. This project models the four protocols that rest on that order and proves what they
keep, for every interleaving and every fault.

## How it is built

- **Upload.** `Upload` gives one request (initiate, send a part, complete, delete) as a program with
  a program counter over MySQL rows, MinIO objects, Redis bitmaps and the event log, each store call
  one atomic step. A call ends without fault, fails before it took effect, or fails after it took
  effect. `Interleaving` runs any number of requests of any number of owners against each other,
  with bitmaps expiring and the tenant tables changing at any step; a step that is not possible
  changes nothing, so every sequence of steps is a run and the theorems speak of all of them. The
  stores are keyed by the real strings of `KeyCodec`. `Progress`, `MergedFile` and `Counting` hold
  the invariants; `Serial`, `Retry` and `Resume` look at requests that follow each other, and show
  that such runs are runs of the same machine. `Answers` tables every reply and what it leaves
  behind, without faults and with them. `Collision`, `LostEvents` and `Sharing` say exactly
  when three things go wrong; they, `FailingRuns` and `Overlap` give runs in which things do, put
  together from the pieces of `Scenario`.
- **The methods.** `Stores`, `TenantRepo`, `DocumentService` and `Auth` are classes that mutate
  fields as the Go code does, loops included. Each of the four use cases of `DocumentService.Service`
  that write (initiate, send a part, complete, delete) is proved to make exactly the store calls of the
  step machine, so what is proved of runs is proved of them.
- **Delivery.** `Delivery` is the Kafka consumer over several partitions that write to one store,
  with failing commits, failing dead-letter writes, crashes and restarts, and `Redelivery` is about
  what that store then holds; `Consumer` is the loop itself, over logs that grow while it runs,
  proved to be a run of that machine.
- **Tenancy, sessions, paging.** `Tenancy` interleaves the transactions of registration with changes
  of the default tenant; `Sessions` interleaves login, refresh and logout under a clock; `Listing`
  treats pages that each come from their own query.

## What does not hold

Where an expected property is false the code is modelled as it is; the exact condition, or for a count
the bound that is attained, is proved,
and so is that the failing case is reached.

- Registration is two transactions, and nothing repeats the second. An account is left without a
  tenant, and no later call gives it one, exactly if it was created and the reply of that was lost, or
  the process died before the second transaction, or that failed before taking effect, or the username
  has more than 56 characters: names of 57 to 64 are accepted (`internal/handler/auth/dto.go:8`), but
  `PRIVATE_` plus such a name does not fit `tenants.tag` (`Tenancy.RegistrationOrphansIff`,
  `Tenancy.OrphansStayOrphans`, `Tenancy.LongNamesAreOrphaned`, `Tenancy.LostRepliesOrphan`).
- Part keys carry no owner. When one of two owners of the same file completes, the parts of the other
  are gone while its bitmap still says all is uploaded: `InitiateUpload` reports every part and
  `CompleteUpload` fails, without any fault. The uploads of an md5 are never stranded if and only if at
  most one user uploads it (`Sharing.NeverStrandedIff`, `Sharing.StrandedIff`, `Sharing.StrandingRun`).
- Neither the md5 (`internal/handler/document/dto.go:8`) nor the file name is checked for slashes, so
  two uploads can have one merged key, and the second replaces the object of the first. The merged
  object is the file in all runs if and only if no other acceptable upload has its key
  (`Collision.AlwaysTheFileIff`, `Collision.SlashedMd5Overwrites`), and a key is shared only where
  there is a slash (`KeyCodec.MergedKeyIsSharedIff`).
- A soft-deleted file can never be uploaded again by its owner: the lookup hides the row and the
  unique key still counts it (`Resume.InitiateSucceedsIff`, `Interleaving.NoInitiateAfterDelete`,
  `FailingRuns.DeletedFileConflicts`).
- Two completions of one document that overlap can both publish, so "at most one ingest event" holds
  in serial runs; in general it is at most one for each completion that read the row before it was
  merged (`Counting.IngestsAreBoundedByReaders`, `Overlap.TwoEvents`).
- The ingest event of a merged document is lost if its publish call never takes effect, be it that
  publishing fails, that the reply of `MarkMerged` is lost, or that the process dies in between; and
  then it is lost for good, because a retry returns early (`LostEvents.MergedAndPublishedIff`,
  `LostEvents.IngestsAreFinal`, `LostEvents.EventLostForGood`).
- A refresh that has passed its check when logout revokes the session can still hand out an access
  token that outlives logout time plus its lifetime (`Sessions.AccessEndsIff`,
  `Sessions.LogoutRacesRefresh`).
- Pages repeat or lose documents if and only if a page boundary falls inside a group of documents
  with equal `created_at` (`Listing.PagesFormAListingIff`, `FailingRuns.TiesAreReachable`).

## Model

| member | source | states |
|---|---|---|
| KeyCodec.PartKeyRoundTrip | internal/infra/minio/object_store.go:11-13 | part keys can be read back for every md5 string and index, and are never merged keys |
| KeyCodec.PartKeyInjective | internal/infra/minio/object_store.go:11-13 | equal part keys mean equal md5 and index, slashes and negative indices included |
| KeyCodec.ProgressKeyRoundTrip | internal/infra/redis/upload_progress_store.go:24-26 | bitmap keys can be read back for every md5 string and owner |
| KeyCodec.ProgressKeyInjective | internal/infra/redis/upload_progress_store.go:24-26 | equal bitmap keys mean equal md5 and owner |
| KeyCodec.MergedKeyRoundTrip | internal/infra/minio/object_store.go:16-18 | merged keys can be read back if and only if the md5 has no slash |
| KeyCodec.MergedKeyInjective | internal/infra/minio/object_store.go:16-18 | merged keys of slash-free md5s determine md5 and file name |
| KeyCodec.PlainMergedKeyIsPrivate | internal/infra/minio/object_store.go:16-18 | a key whose md5 and name are slash-free is shared with no other pair at all |
| KeyCodec.PartAndMergedKeysDiffer | internal/infra/minio/object_store.go:11-18 | part and merged keys never collide |
| KeyCodec.MergedKeyIsSharedIff | internal/infra/minio/object_store.go:16-18 | a merged key belongs to a second pair if and only if its md5 or its file name has a slash |
| KeyCodec.SameMd5SameName | internal/infra/minio/object_store.go:16-18 | two uploads of one md5 share a merged key only under one name |
| KeyCodec.KeysAreSpelled | internal/infra/minio/object_store.go:11-18 | the keys letter by letter, as other programs read them |
| Upload.FileExtIsTheSuffix | internal/service/document/document.go:149-156 | the extension is what follows the last dot, in lower case; a name without dots has none |
| Answers.InitiateAnswers | internal/service/document/document.go:244-292 | every reply of a failure-free InitiateUpload and what it leaves behind, refusals included: an instant hit for a merged row, the set bits for an uploading one, a conflict for a deleted one, a new row otherwise |
| Answers.PartAnswers | internal/service/document/document.go:295-310 | the same for UploadPart; NotFound if and only if the row is absent, deleted or another owner's |
| Answers.CompleteAnswers | internal/service/document/document.go:314-348 | the same for CompleteUpload, decided by row, bits and parts; NotFound if and only if the row is absent, deleted or another owner's |
| Answers.DeleteAnswers | internal/service/document/document.go:212-224 | the same for DeleteDocument: a deleted row keeps its time and is announced again |
| Answers.AnswerOrFault | internal/service/document/document.go:244-310 | with any faults, a request other than CompleteUpload goes exactly as without them or ends in a store fault |
| Answers.FaultsAreTold | internal/service/document/document.go:244-346 | any failed call ends its request with an error, the clean-up and the publish of CompleteUpload excepted, so success is never answered after a failed call |
| Answers.DeletedIsAnnounced | internal/service/document/document.go:217-222 | with any faults, Deleted is answered only if the event of this call is in the log |
| Answers.CompleteIsRefused | internal/service/document/document.go:323-333 | with any faults, completing an upload that lacks bits or parts changes nothing and answers that, or a store fault |
| Answers.CompleteEndsEarly | internal/service/document/document.go:315-321 | with any faults, a completion decided by its first look at the row answers as without them, or a store fault |
| Interleaving.EventsAreCausedAndStayTrue | internal/service/document/document.go:335-346 | in every run, an ingest event describes a merged row and a delete event a soft-deleted row, when it is written and ever after |
| Interleaving.RowHistory | internal/infra/mysql/document_repo.go:94-140 | in every run, (md5, owner) is unique with soft-deleted rows included, merged is never undone, the deletion time is written once |
| Interleaving.TenantPlacement | internal/service/document/document.go:256-288 | in every run, each document lies in a tenant its owner belongs to |
| Interleaving.NoInitiateAfterDelete | internal/service/document/document.go:261-291 | no InitiateUpload that begins after its pair was soft-deleted ever succeeds |
| Interleaving.NoUploadAfterDelete | internal/infra/mysql/document_repo.go:32-44 | in every run, no UploadPart or CompleteUpload that begins after its row was soft-deleted succeeds or changes anything |
| FailingRuns.DeletedFileConflicts | internal/service/document/document.go:261-291 | for every acceptable file a run without faults after which its row is soft-deleted and beginning its upload again is a conflict |
| Interleaving.DeletedPairStaysClosed | migrations/init.sql:72-74 | from any consistent state with a soft-deleted pair, such a request is only ever on its way to an error |
| Interleaving.AdvanceKeepsOk | internal/service/document/document.go:244-348 | each store call of each request keeps unique pairs, true events and tenant placement, and only adds to history |
| Progress.SetBitMeansStoredPart | internal/service/document/document.go:306-309 | in every run, a set bit of an uploading row has its part, unless another owner's row of that md5 was merged |
| Progress.ComposeHasItsSources | internal/service/document/document.go:323-333 | in every run, a completion that found all bits of an uploading row composes exactly if the call has no fault and the part count is positive, under the same proviso |
| Progress.AlwaysBacked | internal/service/document/document.go:295-342 | the underlying invariant: bits, marking requests and scanning requests of an md5 with no merged row all point at stored parts |
| Progress.PartsStay | internal/infra/minio/object_store.go:80-87 | no step removes a part of an md5 that has no merged row |
| MergedFile.AgreeingRequestsMergeTheFile | internal/service/document/document.go:295-348 | end to end: if all requests made for a slash-free md5 agree on bytes and part count, every merged row has those bytes in order under its merged key and their length as size |
| MergedFile.MergedObjectIsTheFile | internal/service/document/document.go:331-346 | the same from agreement state by state, and every ingest event of the row points at exactly these bytes |
| MergedFile.SlashFreeIsPrivate | internal/infra/minio/object_store.go:16-18 | when no other md5 can reach the merged key of a document |
| MergedFile.AgreeingRequestsMergeThePrivateFile | internal/service/document/document.go:295-348 | the end-to-end claim for any md5 whose merged key no row of another md5 reaches |
| Collision.AlwaysUploadable | internal/service/document/document.go:244-288 | in every run, each row passed the checks on md5, extension and column widths |
| Collision.SharedKeyOverwrites | internal/infra/minio/object_store.go:65-77 | for any two acceptable uploads with one merged key: a run without faults, all requests agreeing, that ends with a merged row whose object is not its file |
| Collision.AlwaysTheFileIff | internal/service/document/document.go:295-348 | the merged object is the file in all runs with agreeing requests if and only if no other acceptable upload has the same merged key |
| Collision.SlashedMd5Overwrites | internal/infra/minio/object_store.go:16-18 | an instance: b/c.md under md5 a, and c.md under md5 a/b |
| Counting.IngestsAreBoundedByReaders | internal/service/document/document.go:314-348 | under interleaving, a document has no more ingest events than completions that read its row before it was merged |
| Overlap.TwoEvents | internal/service/document/document.go:314-348 | the bound is attained: for every acceptable file a run without faults with two overlapping completions and two events |
| Counting.ReadersFoundItUploading | internal/service/document/document.go:315-321 | such a completion found the row live, owned and still uploading at that read |
| Counting.AtMostOneIngest | internal/service/document/document.go:319-346 | in serial runs with any faults and any cut-offs, at most one ingest event per document, and only of a merged one |
| Counting.ExactlyOneIngest | internal/service/document/document.go:335-347 | in serial runs without faults, exactly one for each merged document and none for others |
| LostEvents.MergedAndPublishedIff | internal/service/document/document.go:331-346 | a completion with any faults, cut off anywhere, merges exactly if MarkMerged took effect, and logs the event exactly if the publish took effect |
| LostEvents.ReplyTellsOfThePublish | internal/service/document/document.go:344-347 | a completion of a full upload with any faults answers the document exactly if its publish was reported as successful, the document with an error exactly if it was reported as failed, else a store fault; with the first answer the event is in the log |
| LostEvents.IngestsAreFinal | internal/service/document/document.go:315-321 | in interleaved runs, once a row is merged and no completion of it continues, no request whatever changes its number of ingest events |
| LostEvents.EventLostForGood | internal/service/document/document.go:335-346 | for every acceptable file there is a run after which it is merged and has no ingest event in any continuation |
| Serial.RequestsTerminate | internal/service/document/document.go:244-348 | whatever fails, a request returns within a bound of store calls: 2n + 5 to complete n parts, n + 3 to initiate, 3 otherwise |
| Serial.InterleavedRequestsTerminate | internal/service/document/document.go:244-348 | in every interleaved run, a request that has made as many store calls as its bound has returned |
| Serial.SerialRunsAreRuns | internal/service/document/document.go:244-348 | every serial run is a run of the interleaved machine with the same final stores; its requests are the calls, and calls made to their bound are over |
| Retry.ScanIsExact | internal/infra/redis/upload_progress_store.go:39-61 | the list is strictly increasing and exactly the set bits below n; its length is n if and only if all of them are set |
| Retry.OneTry | internal/service/document/document.go:314-348 | one completion with any faults leaves the stores as before the merge or as after it; failure before the merge leaves bits and parts untouched |
| Retry.AfterIsFinal | internal/service/document/document.go:319-321 | after the merge, tries change nothing and return the merged row or a store fault |
| Retry.TriesConverge | internal/service/document/document.go:314-348 | any sequence of failing tries followed by one that returns nil leaves the row and the merged object of one failure-free call |
| Retry.CleanTrySucceeds | internal/service/document/document.go:323-347 | a failure-free completion of a fully uploaded row returns the merged row, writes one event, and leaves no parts and no bits |
| Resume.InitiateSucceedsIff | internal/service/document/document.go:261-291 | a failure-free, admissible InitiateUpload succeeds if and only if the pair was not soft-deleted |
| Resume.InitiateCreates | internal/service/document/document.go:277-291 | for a new pair it adds exactly one uploading row, in the resolved tenant; for a deleted one it conflicts |
| Resume.PartMakesProgress | internal/service/document/document.go:306-309 | a part removes its index and nothing else from the missing ones |
| Resume.PartsArrive | internal/service/document/document.go:295-310 | any parts in any order with repeats: the set bits are the old ones and the sent ones, each with its object |
| Resume.CleanComplete | internal/service/document/document.go:323-347 | the outcome of a failure-free completion of any uploading row: incomplete exactly if a bit is missing, refused for want of a source exactly if no bit is missing and a part is, else merged; only the last changes anything |
| Resume.SourceIsMissing | internal/infra/minio/object_store.go:65-77 | all bits set and any part gone: the compose call is refused and nothing changes |
| Resume.ResumeConverges | internal/service/document/document.go:261-348 | initiate, send, complete: the reported parts are the set bits below n, and completion succeeds if and only if all unreported ones were sent |
| Sharing.OneOwnerIsBacked | internal/service/document/document.go:295-342 | in every run, a sole owner's uploading row meets the hypotheses of the resume theorem |
| Sharing.StrandedIff | internal/service/document/document.go:323-333 | in every run, with all bits set, a failure-free completion fails if and only if a part is gone, and a part is gone only if another owner of that md5 was merged |
| Sharing.MergeTakesSharedParts | internal/infra/minio/object_store.go:80-87 | a completion changes only its own row, leaves the other owner's bits, and removes every part that owner has sent |
| Sharing.MergeStrandsOtherOwner | internal/service/document/document.go:323-342 | after it, the other owner is told that all parts are there and cannot complete |
| Sharing.TwoOwnersAreReachable | internal/service/document/document.go:244-310 | for any acceptable file and any two users: two registrations, two initiations and two parts lead to such a state |
| Sharing.StrandingRun | internal/service/document/document.go:314-348 | for any acceptable file and any two users a run without faults, expiry or deletion that strands an upload |
| Sharing.NeverStrandedIff | internal/service/document/document.go:323-342 | for every acceptable file: over all runs, no upload of its md5 is ever stranded if and only if at most one user uploads it |
| Stores.ObjectStore.ComposeMerged | internal/infra/minio/object_store.go:65-77 | succeeds exactly if the call is fault-free and every source exists; the new object is the parts in index order |
| Stores.ObjectStore.RemoveParts | internal/infra/minio/object_store.go:80-87 | removes parts in order up to the first reported failure, and says where it stopped |
| Stores.RemovedByIsExact | internal/infra/minio/object_store.go:80-87 | the objects left are the old ones without exactly the parts whose removal took effect |
| Stores.SourcesAreParts | internal/infra/minio/object_store.go:65-73 | the source list exists if and only if all parts do, and chaining it is the file |
| Stores.UploadProgress.UploadedParts | internal/infra/redis/upload_progress_store.go:39-52 | without failure the exact list of set bits below n; at the first failure nothing |
| Stores.UploadProgress.AllUploaded | internal/infra/redis/upload_progress_store.go:55-61 | true if and only if every bit below n is set, whatever bits lie above |
| Stores.DocumentRepo.Create | internal/infra/mysql/document_repo.go:22-30 | a conflict if and only if a row of the pair exists, deleted or not; else the row is added as the fault decides |
| Stores.DocumentRepo.GetByMD5AndOwner | internal/infra/mysql/document_repo.go:60-72 | finds the live row of a pair, or reports that there is none |
| Stores.DocumentRepo.ListByOwner | internal/infra/mysql/document_repo.go:74-92 | the rows at the positions of the page in the ordered answer, and the total |
| DocumentService.Service.OwnedDoc | internal/service/document/document.go:182-191 | a live row of this owner, else NotFound; a foreign row is not told apart from none |
| DocumentService.Service.ResolveTenant | internal/service/document/document.go:160-179 | the default tenant, or a requested one the owner is in; which error for which cause |
| DocumentService.Service.InitiateUpload | internal/service/document/document.go:244-292 | makes exactly the store calls of the machine and returns its reply, the extension cut from the file name |
| DocumentService.Service.ResumeExisting | internal/service/document/document.go:267-271 | the branch for a document being uploaded makes the machine's calls to the end |
| DocumentService.Service.CreateNew | internal/service/document/document.go:277-291 | the branch for a new pair makes the machine's insert call, and pairs stay unique |
| DocumentService.Service.UploadPart | internal/service/document/document.go:295-310 | makes exactly the store calls of the machine, object before bit |
| DocumentService.Service.CompleteUpload | internal/service/document/document.go:314-348 | makes exactly the store calls of the machine, through all faults |
| DocumentService.Service.MergeAndPublish | internal/service/document/document.go:331-347 | from the compose call on |
| DocumentService.Service.CleanUpAndPublish | internal/service/document/document.go:341-347 | from MarkMerged on, the event carrying the key that compose returned |
| DocumentService.Service.CleanUp | internal/service/document/document.go:341-342 | the ignored clean-up makes the machine's calls whether or not a removal fails |
| DocumentService.Service.DeleteDocument | internal/service/document/document.go:212-224 | makes exactly the store calls of the machine |
| DocumentService.Service.ListDocuments | internal/service/document/document.go:227-235 | the documents at the positions of the requested page, with page and size corrected where they are out of range |
| Listing.PagesArePrefix | internal/infra/mysql/document_repo.go:74-92 | pages cut from one answer put together are that answer |
| Listing.SameTimes | internal/infra/mysql/document_repo.go:84-88 | any two answers of the query agree on created_at at every position |
| Listing.PagesFormAListingIff | internal/service/document/document.go:227-235 | separately fetched pages list every live document once and newest first, for all answers, if and only if no page starts inside a tie |
| Listing.RequestedIsThePage | internal/service/document/document.go:227-235 | a call gets the documents at positions (page - 1) * size up to page * size; pages below 1 are answered like page 1, sizes outside 1 to 100 like size 20 |
| Listing.CallsFormAListingIff | internal/service/document/document.go:227-235 | the paging theorem for the calls ListDocuments(1), ListDocuments(2), ... with any requested size |
| Listing.TieMovesADocument | internal/infra/mysql/document_repo.go:84-88 | a tie across a page boundary puts one document on two pages |
| FailingRuns.TiesAreReachable | internal/infra/mysql/document_repo.go:84-88 | for any two acceptable files of different md5s a run after which pages of one document each need not form a listing |
| Delivery.AtLeastOnce | internal/infra/kafka/consumer.go:49-76 | in every run with failing commits and dead-letter writes, crashes and restarts, every offset below the committed one was handled or dead-lettered |
| Delivery.DeliveryShapeAndBound | internal/infra/kafka/consumer.go:49-106 | fetched offsets form one gap-free ascending stretch per start of the process, each beginning no later than the previous end; at most 3 handler calls per offset and life, and 3 per start of the process |
| Delivery.LivesBeginAtTheCommitted | internal/infra/kafka/consumer.go:49-58 | whenever the process starts, the stretch that begins then starts at the offset committed at that moment, in every partition |
| Delivery.CommittedIsNotRedelivered | internal/infra/kafka/consumer.go:72 | in every run, once a commit of an offset took effect, every later life starts above it and it is never fetched again |
| Delivery.RestartResumes | internal/infra/kafka/consumer.go:50-75 | a crash after a clean delivery resumes right behind the message |
| Redelivery.RedeliveryIsHarmless | internal/infra/kafka/consumer.go:49-106 | keyed overwrites and deletes from any number of partitions into one store, nothing dead-lettered: once all is dealt with the store equals one clean pass over the logs, provided partitions with a key in common agree on its value |
| Redelivery.DisjointPartitionsAgree | internal/infra/kafka/producer.go:28 | they do if no key occurs in two partitions |
| Redelivery.OrderDecides | internal/infra/kafka/producer.go:23 | without that, two clean runs over the same two messages end with different stores |
| Consumer.RetryTrichotomy | internal/infra/kafka/consumer.go:87-106 | for any bound, exactly one of: an attempt succeeds after slept-out failures, a sleep is cut off, all fail |
| Consumer.BackoffClosedForm | internal/infra/kafka/consumer.go:127-137 | k failed attempts sleep 500 * (2^k - 1) ms |
| Consumer.FullBackoff | internal/infra/kafka/consumer.go:89-99 | a message that exhausts its retries has slept 3500 ms |
| Consumer.Worker.HandleWithRetry | internal/infra/kafka/consumer.go:87-106 | nil, cancelled or the handler's error exactly as the three cases say, with the number of attempts and the time slept |
| Consumer.Worker.FetchMessage | internal/infra/kafka/consumer.go:50-58 | the next message of some partition, a wait that goes on, or the end of this life; messages produced meanwhile are in the log |
| Consumer.Worker.Run | internal/infra/kafka/consumer.go:49-76 | makes exactly the calls of the machine from restart on, ends only by cancellation or failure of a fetch or by a failed dead-letter write, and keeps the at-least-once invariant |
| Consumer.Worker.Consume | internal/infra/kafka/consumer.go:50-75 | the loop of Run, with its three exits |
| Consumer.DrivenIsARun | internal/infra/kafka/consumer.go:49-76 | what the loop does, with messages produced between its calls, is a run of the delivery machine |
| Tenancy.DefaultTenantInvariant | internal/infra/mysql/user_repo.go:82-135 | in every run at most one default tenant per user, and exactly one for each user whose Register returned success |
| Tenancy.PrimaryViewsAgree | internal/infra/mysql/user_repo.go:138-215 | in every run and for every order the database may choose: the selected tag, the head of ListByUser and its only flagged entry agree, and the list holds exactly the memberships |
| Tenancy.JoinIsComplete | internal/infra/mysql/user_repo.go:149-155 | in every run each membership has its tenant, so the join drops nothing |
| Tenancy.CreateTenantKeepsPrimaries | internal/infra/mysql/user_repo.go:82-112 | a new tenant keeps every other default and takes over its creator's if asked to |
| Tenancy.SetPrimaryKeepsPrimaries | internal/infra/mysql/user_repo.go:115-135 | success makes the tag the default one; NotFound exactly without membership and without change |
| Tenancy.CreateUserAnswers | internal/infra/mysql/user_repo.go:39-47 | every reply of Create and the users it leaves |
| Tenancy.CreateTenantAnswers | internal/infra/mysql/user_repo.go:82-112 | every reply of CreateWithMembership, and membership for membership what it leaves |
| Tenancy.SetPrimaryAnswers | internal/infra/mysql/user_repo.go:115-135 | every reply of SetPrimary, and membership for membership what it leaves |
| Tenancy.TagsArePrivate | internal/service/auth/auth.go:59-64 | in every run of registrations, usernames are unique and each tenant tag is PRIVATE_ plus the name of its creator, a user past the second step |
| Tenancy.TenantStepSucceedsIff | migrations/init.sql:12-27 | without faults the second transaction of Register succeeds if and only if the username has at most 56 characters |
| Tenancy.RegistrationOrphansIff | internal/service/auth/auth.go:41-69 | the whole registration, other calls and process death in between included, leaves an account without a tenant if and only if the account was created and its reply was lost, or the process died, or the second transaction failed before taking effect, or the name has more than 56 characters |
| Tenancy.TenantStepOrphansIff | internal/service/auth/auth.go:64-66 | the second transaction by itself leaves the account without any tenant if and only if it fails before taking effect or the tag is too long |
| Tenancy.LongNamesAreOrphaned | internal/service/auth/auth.go:41-69 | a registration with a name of 57 to 64 characters, in which nothing fails, leaves an account without a tenant |
| Tenancy.LostRepliesOrphan | internal/service/auth/auth.go:52-57 | so does a lost reply of the first transaction, with any name |
| Tenancy.OrphansStayOrphans | internal/service/auth/auth.go:41-69 | no later registration or default-tenant change gives such an account a tenant, a second transaction still to come aside |
| Tenancy.MembershipsPersist | internal/infra/mysql/user_repo.go:82-135 | no call takes a membership away |
| TenantRepo.Database.CreateWithMembership | internal/infra/mysql/user_repo.go:82-112 | whichever statement or commit fails, the outcome is that of one atomic step |
| TenantRepo.Database.SetPrimary | internal/infra/mysql/user_repo.go:115-135 | whichever of its three statements or the commit fails, the outcome is that of one atomic step |
| Sessions.LogoutIsFinal | internal/service/auth/auth.go:92-114 | once Logout(t) returned nil, no Refresh(t) that begins later succeeds, for any string t |
| Sessions.LoginStarts | internal/service/auth/auth.go:116-129 | a login without fault hands out both tokens, claim by claim, and stores the session until its deadline |
| Sessions.SessionWorks | internal/service/auth/auth.go:92-105 | whatever else happens, until it is logged out a session refreshes exactly up to the expiry of its token and of its entry, with an access token of the same user |
| Sessions.LogoutBoundsAccess | internal/service/auth/auth.go:92-129 | with no refresh in flight, every access token of the session is rejected from logout plus accessExpire on (exp, section 4.1.4 of RFC 7519) |
| Sessions.SerialLogoutBoundsAccess | internal/service/auth/auth.go:92-129 | in serial runs the bound holds without any proviso |
| Sessions.AccessEndsIff | internal/service/auth/auth.go:97-104 | once the jti (section 4.1.7 of RFC 7519) is revoked, that bound holds if and only if no refresh stands between its check and its signature |
| Sessions.LogoutRacesRefresh | internal/service/auth/auth.go:92-114 | a run of one login, one refresh and one logout in which a token of the session is accepted when all should be rejected |
| Sessions.SignedTokensParse | internal/pkg/token/token_manager.go:60-100 | a token passes exactly the parser of its own kind and only before its expiry in whole seconds |
| Sessions.RefreshCallOutcome | internal/service/auth/auth.go:92-105 | an undisturbed refresh succeeds exactly for a token that parses and whose jti is live at the check |
| Auth.AuthService.Register | internal/service/auth/auth.go:41-69 | one or two steps of the tenancy machine, success exactly if both succeeded, and then the private tenant is the default one |
| Auth.AuthService.IssueTokens | internal/service/auth/auth.go:116-129 | one login step of the session machine, each signature and the save at its own clock reading; the refresh token never outlives its entry in the store |
| Auth.AuthService.Refresh | internal/service/auth/auth.go:92-105 | succeeds exactly for a live refresh token; which error otherwise |
| Auth.AuthService.Logout | internal/service/auth/auth.go:108-114 | revokes a valid token, ignores an invalid one; after nil the token never again passes both checks of Refresh on this store |
| Stores.ObjectStore.PutPart | internal/infra/minio/object_store.go:37-45 | plumbing: writes the object of one part if the call takes effect, and nothing else |
| Stores.UploadProgress.MarkPart | internal/infra/redis/upload_progress_store.go:29-36 | plumbing: sets one bit of one bitmap if the call takes effect |
| Stores.UploadProgress.Clear | internal/infra/redis/upload_progress_store.go:64-66 | plumbing: forgets one bitmap if the call takes effect |
| Stores.DocumentRepo.GetByID | internal/infra/mysql/document_repo.go:32-44 | plumbing: finds exactly the live rows |
| Stores.DocumentRepo.GetByIDAny | internal/infra/mysql/document_repo.go:46-58 | plumbing: finds every row, soft-deleted ones included |
| Stores.DocumentRepo.MarkMerged | internal/infra/mysql/document_repo.go:94-101 | plumbing: sets merged and size of one row, deleted or not |
| Stores.DocumentRepo.SoftDelete | internal/infra/mysql/document_repo.go:136-140 | plumbing: writes the deletion time only where there is none |
| Stores.Producer.Publish | internal/infra/kafka/producer.go:29-37 | plumbing: appends one event if the call takes effect |
| Consumer.Worker.PublishDLQ | internal/infra/kafka/consumer.go:108-125 | plumbing: a dead-letter write that may fail before or after taking effect, as one machine step |
| Consumer.Worker.CommitMessages | internal/infra/kafka/consumer.go:72-74 | plumbing: a commit whose failure is dropped |
| TenantRepo.Database.CreateUser | internal/infra/mysql/user_repo.go:39-47 | plumbing: unique usernames within the column width |
| TenantRepo.Database.GetPrimaryTag | internal/infra/mysql/user_repo.go:175-187 | plumbing: a default tenant if there is one, else NotFound |
| TenantRepo.Database.IsMemberOf | internal/infra/mysql/user_repo.go:190-200 | plumbing: decides membership |
| TenantRepo.Database.ListTenants | internal/infra/mysql/user_repo.go:138-172 | plumbing: one entry per row of the ordered join, in its order |
| Auth.RefreshTokenStore.Save | internal/infra/redis/refresh_token_store.go:27-29 | plumbing: one entry with its deadline, if the call takes effect |
| Auth.RefreshTokenStore.Exists | internal/infra/redis/refresh_token_store.go:32-38 | plumbing: true exactly for an entry before its deadline |
| Auth.RefreshTokenStore.Revoke | internal/infra/redis/refresh_token_store.go:41-43 | plumbing: removes one entry, if the call takes effect |

## Left out

- Upload.FileExtIsTheSuffix: lower-casing is modelled for the letters A to Z only.
- DocumentService.Service.InitiateUpload: ResumeExisting and CreateNew are branches of the one source method.
- DocumentService.Service.CompleteUpload: is split into CompleteUpload, MergeAndPublish, CleanUpAndPublish and CleanUp for the proof; the statements and their order are those of the source.
- DocumentService.Service.UploadPart: a negative index cannot pass the range check, so the bitmap is only ever marked at naturals; the declared part size and the reader are one byte sequence.
- Stores.DocumentRepo.ListByOwner: count and query see the same table, and the order the database chooses among equal times is a parameter.
- Stores.ObjectStore.ComposeMerged: the size MinIO reports is the true length; part-size and part-count limits of MinIO are not modelled. A negative count is excluded here and makes CompleteUpload panic before.
- Stores.UploadProgress.MarkPart: refreshing the 24 hour expiry is not in the contract. Expiry is a step that may happen to any bitmap at any time, refreshed or not, so what is proved does not rest on the clock.
- Listing.PagesFormAListingIff: the table does not change between the page queries.
- Consumer.Worker.Run: the loop of the source has no bound; here it is watched for an arbitrary number of external calls, and a fetch that finds nothing is a fetch that still waits.
- Consumer.Worker.PublishDLQ: the JSON payload is not modelled, only which offset it is about; rejoining after a rebalance and several consumers of one partition are decided by Kafka.
- Redelivery.RedeliveryIsHarmless: messages are keyed overwrites and deletes, since the real handler is a placeholder that always fails.
- TenantRepo.Database.ListTenants: the answer of the ordered join is a parameter, any that the query allows; numeric tenant ids are not modelled.
- Tenancy.TagsArePrivate: holds for registrations and default-tenant changes, the calls the services make; other tenants may be created in the other theorems.
- Auth.AuthService.Register: password hashing and its failure are not modelled.
- Login: looking up the user and checking the password are not modelled; what remains of it is IssueTokens.
- Sessions: signatures are unforgeable and jtis fresh; HMAC, JSON and UUIDs are not modelled.
- MySQL rejects a value longer than its column, as in its strict mode; a lenient server would truncate it.
- MySQL comparisons ignore case in the default collation; here strings are equal only if identical. Integers are unbounded.
- MarkIngestProcessing, MarkIngestDone, MarkIngestFailed and HardDelete have no callers; HardDelete would break the row history.
- The comment in internal/infra/kafka/producer.go:28 promises one partition per file, but the writer uses `LeastBytes` (line 23), which ignores keys. Nothing is claimed about the order of messages in different partitions.
- That total_size respects the upload limit is not claimed: the limit is checked on the declared size only.
- The ingest pipeline, search, chat, HTTP handlers, middleware, configuration, logging and bootstrap are not part of this model.
