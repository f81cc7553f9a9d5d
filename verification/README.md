# Verified model of the backend's stateful core

A Dafny model of the parts of the backend that hold state, recurse or count, with proofs about every run of them:
refresh-token sessions, user rows and passwords, redaction of logged data, file rows against stored objects, object
keys, file listings and pages, SQS batch delivery, and trace propagation. `dafny verify dfyconfig.toml` checks all of it.

## What is modelled

- `Users`, `UserRuns`: the user entity with the hook that hashes a password on every save, the users service, the two
  lookups of the auth service, the seeded administrator. A run is any sequence of operations. `UserRaces`: the same calls
  cut between fetching an entity and saving it. `UserLateSaves`: exactly what a save that comes late can bring back.
- `Sessions`: the auth service as a class over a token table, each method proved to do what a function says a whole call
  does. `SessionLog`: histories of tokens and what follows for every history. `SessionRuns`: runs of whole calls, where the
  table is proved to be exactly what the history says. `SessionInterleaving`, `SessionRaces`: any number of requests in
  flight, cut at their awaits and interleaved with revocations, user changes and time.
- `Redaction`: redaction as a map on JSON values. `RedactionHeap`: the clone and the in-place overwriting on heap objects,
  proved to compute that map on new objects only.
- `StorageKeys`: key generation over POSIX `path.basename` and `path.extname`. `Files`: the files service and the object
  store, where a call may stop at any await. `FileTasks`: uploads, completions and deletions as interleaved tasks.
  `FileViews`: listings, access and pages.
- `Tracing`: trace contexts over HTTP and Bull hops. `Queue`: the batch loop, redelivery, and the email processor's data.

## Assumptions

- Random tokens, UUIDs and hence keys are new; UUIDs have the text form of section 4 of RFC 9562.
- Removing an absent row or object does nothing. A save that would break a UNIQUE column, or refer to no user row, fails
  and changes nothing. User rows are never hard-deleted, and ordinary finds skip soft-deleted rows, also through the `user`
  relation of a token.
- Saving a fetched entity writes all its columns back as they were fetched, except those changed on the entity: a deletion
  mark set meanwhile is cleared, and a row removed meanwhile is inserted again.
- bcrypt is a `hash`/`compare` pair whose hashes start with `$2b$`; `accepts` says which candidates it takes for a password.
- Between two steps of a session request the users may change in any way that drops no row; that includes the return of a
  removed user, which the code allows only through a late save.
- Time is a non-decreasing integer in milliseconds, and adding seconds to a date adds that much time.
- `JSON.parse` is a parameter of the queue model; parsing the text of a message body that was sent gives that body back.

## Where the code does not do what one might expect

These are proved, and the model keeps the code as it is.

- Overlapping refreshes of one token can all succeed, any number of them
  (`SessionRaces.OverlapRedeemsAnyNumberOfTimes`); `SessionRaces.RedeemableExactly` says how often a token can still be
  redeemed at any moment.
- `logoutAll` leaves an older session behind exactly when a refresh of that user is pending at that moment
  (`SessionRaces.RevocationIsCompleteExactlyWithoutPendingRefresh`).
- The service's `login`, called for a user found in another way than `validateUser`, starts a session for a user who is
  not active (`SessionRuns.OnlyDirectLoginAddsForInactive`).
- A status change, a removal or a password change of a user is undone by a call that fetched the user before and saves
  after (`UserLateSaves.LateSaveUndoesBan` is a run, `UserLateSaves.ColumnReturnsExactly` says when it can happen), and a
  deleted file comes back, without its object, when `completeUpload` saves late (`FileTasks.DeletedFileReturnsWithoutObject`).
- A password that starts like a hash is stored as it is (`UserRuns.PlaintextThatLooksHashed`).
- Without overlapping calls the email of a removed user can never be used again (`UserRuns.RemovedEmailStaysTaken`); with
  them it can be exactly if the user can come back (`UserLateSaves.RemovedEmailIsFreedExactly`).
- With driver `bull` a batch of SQS records is acknowledged without being enqueued (`Queue.BullDriverEnqueuesNothing`), and
  the trace id does not survive SQS (`Queue.TraceIsLostThroughSqs`), although the tracing guide says that background jobs
  keep it.

## Model

| member | source | states |
|---|---|---|
| Sessions.AuthService.RefreshToken | src/modules/auth/auth.service.ts:137-163 | each refusal iff the table says so: unknown, expired (row dropped), owner gone, owner not active; else the row is replaced by one for the random token ending 1000 times the refresh duration from now, and the answer has the user, the token and the access duration |
| Sessions.AuthService.GenerateRefreshToken | src/modules/auth/auth.service.ts:181-208 | inserts one row for the random token ending 1000 times the configured refresh duration from now, n days being n * 86400000 ms, or refuses and changes nothing |
| Sessions.AuthService.Login | src/modules/auth/auth.service.ts:115-135 | starts a session for the user given, whatever the status, and answers user, token and access duration, n hours being n * 3600 |
| Sessions.AuthService.Logout | src/modules/auth/auth.service.ts:165-175 | takes exactly the token's row out; an unknown token changes nothing |
| Sessions.AuthService.LogoutAll | src/modules/auth/auth.service.ts:177-179 | keeps exactly the rows of other users |
| Sessions.AuthService.SignIn | src/modules/auth/auth.controller.ts:36-47 | a session starts only for the user whose credentials are accepted, with the configured durations; a refusal changes nothing |
| Sessions.DurationsAreReadBack | src/modules/auth/auth.service.ts:210-228 | exactly the texts of a count, with any zeros before it, and s, m, h, d or w are read, as n times 1, 60, 3600, 86400 or 604800 seconds; every other text means one hour |
| Sessions.SomeDurations | src/modules/auth/auth.service.ts:120-188 | the defaults 7d and 1h, and that counts are decimal |
| SessionLog.EveryTokenHasOneChain | src/modules/auth/auth.service.ts:137-163 | in any sane history each issued token has exactly one rotation chain back to a login, owned by one user |
| SessionRuns.RefreshSucceedsExactly | src/modules/auth/auth.service.ts:137-163 | over all runs, a refresh succeeds iff the token was issued, nothing ended it since, its lifetime from issue has not passed (end instant included) and its owner is live and active |
| SessionRuns.RefreshMovesTheSession | src/modules/auth/auth.service.ts:158-162 | a successful refresh removes the old token and adds one new row for the same user with a full lifetime from now |
| SessionRuns.RefusedRefreshChangesNothing | src/modules/auth/auth.service.ts:143-156 | unknown tokens and gone or inactive owners leave the table unchanged |
| SessionRuns.LiveTokensHaveOneLineage | src/modules/auth/auth.service.ts:115-163 | each live token has exactly one finite chain back to a login, all of it for the row's user |
| SessionRuns.TokensAreSingleUse | src/modules/auth/auth.service.ts:158-162 | in runs of whole calls no token is redeemed twice and no redeemed token is in the table |
| SessionRuns.LogoutAllEndsEarlierSessions | src/modules/auth/auth.service.ts:177-179 | after logoutAll, whatever follows, every live token of the user descends from a later login |
| SessionRuns.ChainsLastSoManyLifetimes | src/modules/auth/auth.service.ts:190-203 | a live token with k rotations behind it ends at most k + 1 lifetimes after its login |
| SessionRuns.SessionCountIsBalance | src/modules/auth/auth.service.ts:115-179 | conservation: a user's live tokens are logins minus effective logouts and expired removals since the last logoutAll |
| SessionRuns.RefreshKeepsCounts | src/modules/auth/auth.service.ts:137-163 | a successful refresh leaves every user's number of sessions unchanged |
| SessionRuns.OnlyDirectLoginAddsForInactive | src/modules/auth/auth.service.ts:54-56 | one call adds a session for a non-active user iff it is a direct service login for that user |
| SessionRuns.SessionsOfInactiveUsersShrink | src/modules/auth/auth.controller.ts:36-47 | while a user stays non-active through a run of requests, the set of that user's live tokens only shrinks |
| SessionRuns.SignInSucceedsExactly | src/modules/auth/auth.service.ts:43-73 | after any run of user operations and sessions from empty tables, a sign-in succeeds iff a live active user has the email and the password opens the one last set for that user |
| SessionInterleaving.LiveTokensHaveOneLineage | src/modules/auth/auth.service.ts:137-163 | the one-chain property holds under every interleaving of steps |
| SessionRaces.RemovedTokensNeverReturn | src/modules/auth/auth.service.ts:137-163 | once out of the table a token never comes back and no later lookup finds it, whatever interleaves |
| SessionRaces.RedemptionsAtMostLookupsBeforeRemoval | src/modules/auth/auth.service.ts:137-163 | all redemptions of a token, ever, are at most the lookups that found it before its removal |
| SessionRaces.OverlapRedeemsAnyNumberOfTimes | src/modules/auth/auth.service.ts:137-163 | for every n some interleaving redeems a live token n times, so that bound is exact |
| SessionRaces.RedeemableExactly | src/modules/auth/auth.service.ts:137-163 | at any moment, some continuation brings an issued token to n redemptions iff it is in the table unexpired or the redemptions so far and the refreshes of it past refusal come to n |
| SessionRaces.OneAtATimeIsSingleUse | src/modules/auth/auth.service.ts:137-163 | whatever else overlaps, a token whose own refreshes come one at a time is redeemed at most once |
| SessionRaces.WithoutOverlapTokensAreSingleUse | src/modules/auth/auth.service.ts:137-163 | in runs whose requests do not overlap each token is redeemed at most once |
| SessionRaces.RevocationIsCompleteExactlyWithoutPendingRefresh | src/modules/auth/auth.service.ts:177-179 | some continuation keeps a session begun before logoutAll iff a refresh of that user is past its refusable point at that moment |
| SessionRaces.BarredUserGainsSessionExactly | src/modules/auth/auth.service.ts:54-56 | while a user stays non-active, some continuation gives that user a new session iff a refresh past its status check or a login past validateUser, or made without it, is pending at the start |
| SessionRaces.UninterruptedRefreshIsTheCall | src/modules/auth/auth.service.ts:137-163 | the five steps of a refresh without interference do and answer what the whole call does |
| SessionRaces.UninterruptedLogoutIsTheCall | src/modules/auth/auth.service.ts:165-175 | the two steps of a logout without interference take exactly the token out |
| SessionRaces.UninterruptedLoginIsTheCall | src/modules/auth/auth.service.ts:115-135 | the steps of a login without interference do and answer what the whole call does |
| SessionRaces.UninterruptedSignInIsTheCall | src/modules/auth/auth.controller.ts:36-47 | the steps of a sign-in with a user's own credentials do and answer what the whole call does, for every status |
| Users.User.HashPassword | src/modules/users/entities/user.entity.ts:112-124 | replaces the password by its hash if it is there, not empty and does not look hashed |
| Users.UsersService.Create | src/modules/users/users.service.ts:16-28 | the table and answer of the create call; the new row column by column, PENDING if no status is given, and all other rows as before |
| Users.CreateCall | src/modules/users/users.service.ts:16-28 | succeeds iff no row, live or soft-deleted, has the email; conflict iff a live one has; a failure changes nothing |
| Users.UsersService.Update | src/modules/users/users.service.ts:52-68 | the table and answer of the update call, by merging into a fetched entity; every column of the row, named fields overwritten and all others as before |
| Users.UpdateCall | src/modules/users/users.service.ts:52-68 | succeeds iff the user is live and no other row has the resulting email; a failure changes nothing |
| Users.UsersService.UpdateStatus | src/modules/users/users.service.ts:75-79 | sets the status of that live row, through a save that runs the hook, and nothing else |
| Users.UsersService.Remove | src/modules/users/users.service.ts:70-73 | marks exactly that live row as deleted |
| Users.ValidateUser | src/modules/auth/auth.service.ts:43-73 | each refusal and the acceptance iff the row of the email says so |
| Users.ValidateOAuthUser | src/modules/auth/auth.service.ts:75-113 | creates or updates the row of the profile's email, column by column: a new one ACTIVE, without password, named by given or display name; an old one linked and otherwise as before |
| UserRuns.EmailsAreDistinct | src/migrations/1757907522376-UserMigration.ts:10-11 | emails are pairwise distinct in every reachable table, soft-deleted rows included |
| UserRuns.FailuresLeaveNoTrace | src/modules/users/users.service.ts:16-80 | a run ends in the same table, with the same passwords given, as its succeeding operations alone |
| UserRuns.RemovedEmailStaysTaken | src/modules/users/users.service.ts:16-28 | over runs of whole calls, however long they go on, the email of a removed user is refused to others |
| UserRuns.PasswordsAreHashedOnce | src/modules/users/entities/user.entity.ts:112-124 | in every run the stored password is one hash of the last given one, or that text itself if it looked hashed |
| UserRuns.SavesWithoutAPasswordAreExact | src/modules/users/users.service.ts:52-79 | status, profile and OAuth saves change exactly the named columns of one row, never the password |
| UserRuns.ValidateAcceptsExactly | src/modules/auth/auth.service.ts:43-73 | over all runs validateUser accepts a candidate iff the user is live and active and the candidate opens the last given password |
| UserRuns.StatusIsLastGiven | src/modules/users/entities/user.entity.ts:64-69 | over all runs a user's status is the one last given, PENDING for a user created without one |
| UserRuns.PendingUsersAreRefused | src/modules/auth/auth.service.ts:54-56 | a user created without a status is refused at sign-in until an update or a status call gives ACTIVE |
| UserRuns.SeededAdminSignsIn | src/database/seeds/user.seeder.ts:16-34 | once seeded, and whatever happens to other users, the administrator signs in with exactly the seeder's password |
| UserRuns.SeededRow | src/database/seeds/user.seeder.ts:22-34 | the columns of the seeded administrator, and no second one |
| UserRuns.PlaintextThatLooksHashed | src/modules/users/entities/user.entity.ts:121-124 | a concrete run in which a plaintext starting with $2b$ is stored unhashed |
| UserRaces.EmailsDistinctAndHashedOnce | src/modules/users/users.service.ts:16-80 | with lookups and saves of calls interleaved, emails stay pairwise distinct and each stored password is one hash of a password given for that user |
| UserLateSaves.BarredStays | src/modules/users/users.service.ts:52-79 | a non-active user stays so under every interleaving unless a call for ACTIVE is made or one that will save ACTIVE is under way |
| UserLateSaves.BarIsLiftedExactly | src/modules/users/users.service.ts:75-79 | a ban or removal is undone in some continuation without a new call for ACTIVE iff a call under way holds an ACTIVE entity of the user or asks for ACTIVE, and is not refused for ever |
| UserLateSaves.ColumnReturnsExactly | src/modules/users/users.service.ts:52-68 | the same for the active status and for any stored password: it comes back without a new call for it iff some call under way would save it and neither the email that call writes is taken for good by another removed user nor the user, if still to be fetched, gone for good |
| UserLateSaves.RemovedUserReturnsExactly | src/modules/users/users.service.ts:70-73 | a removed user becomes live again in some continuation iff no set of removed users around it block each other's calls by their emails; else the row never changes again |
| UserLateSaves.RemovedEmailIsFreedExactly | src/modules/users/users.service.ts:70-73 | the email of a removed user becomes another user's in some continuation iff the removed user can come back |
| UserLateSaves.LateSaveUndoesBan | src/modules/users/users.service.ts:75-79 | a run from the empty table: create ACTIVE, a profile update fetches, ban, the update saves, and the user is ACTIVE |
| UserLateSaves.LateSaveFreesRemovedEmail | src/modules/users/users.service.ts:52-73 | a run from the empty table in which a removed user comes back under another email and a new user takes the old one |
| UserRaces.UninterruptedCallIsTheCall | src/modules/users/users.service.ts:16-80 | the steps of a call without interference do what the whole call does |
| RedactionHeap.SanitizeData | src/shared/interceptors/logging.interceptor.ts:96-125 | the result spells out the redaction of the data on new objects only; every object of the caller is unchanged; falsy data comes back as it is |
| RedactionHeap.RedactSensitiveFields | src/shared/interceptors/logging.interceptor.ts:127-152 | on a tree-shaped value the in-place overwriting yields exactly the pure redaction, changing only fields of that tree, and terminates |
| RedactionHeap.Clone | src/shared/interceptors/logging.interceptor.ts:101-102 | a tree of new objects with the same content, also from shared objects |
| Redaction.RedactionForgetsExactlySensitive | src/shared/interceptors/logging.interceptor.ts:127-152 | two values redact alike iff they agree everywhere except below sensitive keys |
| Redaction.CleanPathsKeepTheirValue | src/shared/interceptors/logging.interceptor.ts:138-151 | paths free of sensitive keys find the same leaves, key sets and lengths as before, and missing paths stay missing |
| Redaction.SensitivePathsLeadToTheMarker | src/shared/interceptors/logging.interceptor.ts:142-147 | at the first sensitive key of a path stands the marker, and nothing below it |
| Redaction.RedactionIsIdempotent | src/shared/interceptors/logging.interceptor.ts:127-152 | redacting twice equals redacting once |
| Redaction.ShorterListDecidesAlike | src/shared/interceptors/logging.interceptor.ts:105-119 | the ten words without refreshToken, accessToken and apiKey decide as the thirteen do |
| Redaction.KeysAroundAFieldAreSensitive | src/shared/interceptors/logging.interceptor.ts:105-119 | every key with one of the thirteen names anywhere in it is sensitive |
| Redaction.CaseOfAKeyIsIrrelevant | src/shared/interceptors/logging.interceptor.ts:140-146 | keys that differ in letter case only are treated alike |
| StorageKeys.GeneratedKeysParseBack | src/shared/services/storage.service.ts:241-253 | each generated key parses back uniquely into the prefix, date and UUID it was made with, and a stem and an extension, for any file name |
| StorageKeys.KeyOfPieces | src/shared/services/storage.service.ts:241-253 | for a file name given as directories, stem, extension and trailing slashes: prefix, date, UUID, the sanitised stem and the extension, with one slash after the prefix |
| StorageKeys.KeyCarriesStem | src/shared/services/storage.service.ts:243-245 | what is left of the base name without the extension is what the key carries, sanitised |
| StorageKeys.BaseNameIs | src/shared/services/storage.service.ts:244 | the base name stands between the last slash and any slashes at the end |
| StorageKeys.ExtName | src/shared/services/storage.service.ts:243 | the extension is a dot and what follows the last dot of the base name; empty only for a name without a later dot |
| StorageKeys.DistinctIdsGiveDistinctKeys | src/shared/services/storage.service.ts:241-253 | distinct UUIDs give distinct keys whatever the names, prefixes and dates |
| StorageKeys.KeyNamesAgree | src/shared/services/storage.service.ts:274 | path.basename(key) equals key.split('/').pop() |
| StorageKeys.SplitIsUndoneByJoining | src/modules/files/files.service.ts:65 | the parts have no separator, and joined they are the text |
| StorageKeys.KeyKeepsExtension | src/shared/services/storage.service.ts:243-252 | the key has the extension of the file name |
| Files.NewFilesAreNamedAlike | src/modules/files/files.service.ts:64-66 | uploaded and presigned rows get the same filename column for the same key |
| Files.UrlsAreDistinct | src/shared/services/storage.service.ts:160-165 | distinct keys have distinct urls |
| Files.FilesService.UploadFile | src/modules/files/files.service.ts:18-46 | object then row, or what is left when the call stops in between; the row column by column, PRIVATE if no access level is given |
| Files.FilesService.GetPresignedUploadUrl | src/modules/files/files.service.ts:48-81 | a row of size 0 without url and without an object, column by column; refused iff objects are not in S3 |
| Files.FilesService.CompleteUpload | src/modules/files/files.service.ts:150-164 | sets size and url of a live row and nothing else |
| Files.FilesService.DeleteFile | src/modules/files/files.service.ts:129-148 | each refusal iff the row says so; else object then soft-deleted row, or what is left when the call stops in between |
| Files.FilesService.Remove | src/modules/files/files.service.ts:180-194 | object then row, or what is left when the call stops in between |
| Files.StorageService.DeleteFile | src/shared/services/storage.service.ts:171-196 | the object is gone, absent or not before; all others stay |
| Files.RetryConverges | src/modules/files/files.service.ts:129-148 | after a completed retry, any number of earlier stopped deletions, with any other operations in between, have left no trace |
| Files.OnlyStoppedAttemptsThenRetry | src/modules/files/files.service.ts:180-194 | stopped attempts and one completed retry end where one uninterrupted call ends |
| FileTasks.RowsAndObjectsAgree | src/modules/files/files.service.ts:18-46 | in every interleaving of uploads, completions and deletions: a live uploaded row lacks its object iff a deletion of it is halfway, or done and the row written back; an uploaded object lacks a live row iff its upload is halfway; an object holds the uploaded bytes |
| FileTasks.DeletedRowReturnsExactly | src/modules/files/files.service.ts:150-164 | after a deletion has reached the row, some continuation makes the file live again iff a completion that fetched it is still to save |
| FileTasks.WithoutLateSavesRowsHaveObjects | src/modules/files/files.service.ts:150-164 | in runs where no completion saves after a deletion, a live uploaded row lacks its object iff a deletion of it is halfway |
| FileTasks.DeletedFileReturnsWithoutObject | src/modules/files/files.service.ts:150-164 | an interleaving that leaves any uploaded file live without its object and without a deletion under way |
| FileTasks.StepsAreLocal | src/modules/files/files.service.ts:129-148 | no step of one file changes another file's row or object |
| FileTasks.DeletionIsTheCall | src/modules/files/files.service.ts:180-194 | a deletion task left after n effects is the call that stops after n effects |
| FileTasks.UploadIsTheCall | src/modules/files/files.service.ts:18-46 | an upload task left after n effects is the call that stops after n effects |
| FileTasks.CompletionIsTheCall | src/modules/files/files.service.ts:150-164 | a completion task left after n effects is the call that stops after n effects |
| FileViews.GetFile | src/modules/files/files.service.ts:83-106 | each refusal iff the row says so, else the row with a fresh url and all other columns as stored |
| FileViews.UploadedIsReadable | src/modules/files/files.service.ts:18-106 | an uploaded file can be read by its uploader, and by others iff it was uploaded as public |
| FileViews.PresignedIsReadable | src/modules/files/files.service.ts:48-106 | the same for a file added by a presigned URL |
| FileViews.GetFiles | src/modules/files/files.service.ts:108-127 | the selected files in order, each with a fresh url |
| FileViews.GetUserFiles | src/modules/files/files.service.ts:221-226 | the user's own files in order, as stored |
| FileViews.ListedAreTheReadable | src/modules/files/files.service.ts:83-127 | getFiles lists each file once, newest first, and exactly those that getFile gives the user |
| FileViews.OwnFilesAreTheDeletable | src/modules/files/files.service.ts:129-141 | getUserFiles is getFiles narrowed, in the same order, and exactly what deleteFile accepts |
| FileViews.PagesCoverTheFiles | src/modules/files/files.service.ts:167-178 | pages 1 to ceil(total/limit) joined are all live files once each, in order; later pages are empty; the total is the number of live files |
| Queue.TaskHandler | src/lambda.ts:46-54 | enqueues exactly the jobs of the records before the first failure, in order, and fails iff there is one; with driver bull it enqueues nothing and succeeds iff all can be read |
| Queue.QueueService.ProcessMessage | src/shared/services/queue.service.ts:100-122 | with driver bull only parses; else one job with the message's name and payload, or an error and no job |
| Queue.RecordsAreRead | src/lambda.ts:48-49 | a record is read as an object or as the text of one; null and texts that cannot be parsed are errors at both levels |
| Queue.QueueService.Add | src/shared/services/queue.service.ts:50-94 | one job or one SQS message with the enriched payload, none for another driver |
| Tracing.EnrichPayload | src/shared/services/queue.service.ts:53-58 | the payload names the sender's trace and request, and keeps every other field |
| Tracing.EnvelopeStays | src/shared/services/queue.service.ts:64-69 | the job's data has the message's other fields as they were and the enriched payload |
| Queue.ThroughSqsIsThat | src/shared/services/queue.service.ts:76-85 | any messages sent by add with driver sqs can be read as a batch, which puts each into Bull in order with the bare enriched payload as data |
| Queue.AtLeastOnceAtMostOncePerAttempt | src/lambda.ts:46-54 | with a driver other than bull, redelivery until success adds exactly the jobs of the delivered positions, each position at least once and at most once per attempt |
| Queue.CopiesInTheQueue | src/lambda.ts:46-54 | counted in the queue: redelivery until success adds each job at least as often as the batch has it, and at most that often per attempt |
| Queue.QueueHoldsDelivered | src/lambda.ts:46-54 | after any attempts, with any driver, the queue holds the jobs of the delivered positions, attempt by attempt in order |
| Queue.UnreadableRecordBlocksTheRest | src/lambda.ts:46-54 | with an unreadable record no attempt succeeds and no later record is ever enqueued |
| Queue.BullDriverEnqueuesNothing | src/shared/services/queue.service.ts:110-112 | with driver bull every attempt at a readable batch succeeds and adds nothing to the queue |
| Queue.EmailFieldsAgreeExactly | src/shared/modules/queue/processors/email.processor.ts:25 | under any names but the two trace fields, the email processor reads the same with both drivers iff the payload has no truthy field named payload or has those names alike in it |
| Queue.PayloadIsUnpacked | src/shared/modules/queue/processors/email.processor.ts:25 | the processor takes the payload field of the data unless it is missing or falsy |
| Queue.TraceIsLostThroughSqs | src/shared/modules/queue/processors/email.processor.ts:11-20 | the trace id survives Bull, and through SQS does not depend on the sender's context |
| Tracing.GetTracingHeaders | src/shared/services/tracing.service.ts:88-105 | one header for each id that is there and not empty |
| Tracing.HeadersAreRead | src/shared/services/tracing.service.ts:110-120 | each id is the header if it is there and not empty, else new, or the trace id for the correlation id |
| Tracing.MissingIdsAreMade | src/shared/services/tracing.service.ts:53-63 | given ids are kept, missing ones made up, and the correlation id is the trace id by default |
| Tracing.OwnHeadersStay | src/shared/services/traced-http.service.ts:18-28 | an outgoing request keeps the caller's headers, except those of ids that are there |
| Tracing.HeadersRoundTripExactlyWhenFull | src/shared/services/tracing.service.ts:88-120 | extractFromHeaders undoes getTracingHeaders iff the three ids are non-empty |
| Tracing.HopsInClosedForm | src/shared/services/traced-http.service.ts:18-38 | any mix of HTTP and email-job hops: the trace id is constant, after a job the correlation id equals it and the request id names the last job |
| Tracing.ExtractedContextsAreFull | src/shared/services/tracing.service.ts:110-120 | from any incoming headers the trace id stays the same along all hops |

## Left out

- S3, SQS, Bull, Redis, PostgreSQL, TypeORM, JWT signing and bcrypt internals: maps, queues and abstract functions stand for them; bcrypt's input length limit is inside `accepts`.
- Controllers other than sign-in, DTO validation, guards, exception filter, configuration, seeding beyond the administrator: wiring or single branches.
- Access tokens, user agent, IP and `lastName` columns, `toResponse`, `fullName`, `comparePassword`: only copied or dropped fields.
- `null` for a profile field other than the password in an update: DTO validation and NOT NULL columns decide there.
- `updateContext` and `runWithContext`: a context is passed explicitly instead of being found in async local storage.
- `getAxiosRef`, `FileProcessor`, progress updates and job retries of Bull: no state of their own in the model.
- `getStats`, `getFileMetadata`, MIME types, signing of URLs and the presigned-post policy: a URL is a function of the key, and a presigned URL allows one key.
- FileTasks.RowsAndObjectsAgree: files added by presigned URLs are outside it, since a client may put their object at any time.
- Tracing.JobContext: a trace id in a job that is truthy and no text is replaced by a new one here; the original keeps it.
- Queue.QueueService.Add: the delay and options, and Bull ignoring a job whose id it still keeps, are internals of Bull.
- Queue.QueueService.ProcessMessage: a job name that is missing or no text, which Bull takes for the data, stays the name here.
- Redaction.CaseOfAKeyIsIrrelevant: covers the letters A-Z; the others are taken as they are, see `Redaction.Lower`.
- Redaction.Lower: characters other than A-Z, the Kelvin sign and the dotted capital I are left as they are, which no match with an ASCII word can tell.
- Redaction.Json: values of `undefined`, cyclic values and key order are not modelled; the clone of a cycle throws in the original.
- StorageKeys.Sanitized: a character outside the basic plane becomes one dash here and two in the original; the date part is that of a four-digit year.
- Sessions.ParseExpirationTime: counts are unbounded integers; the original loses precision beyond 2^53.
- Cached server and application objects of the Lambda entry: set once.
