# Identity service: a verified model

This project models the transactional core of the identity service in Dafny and proves what
it keeps over whole runs. Every serializable transaction is one atomic step over tables held
as maps; workers, mail servers and downstream systems interleave, crash and come back stale
between steps. Time is a natural number of microseconds, identifiers are natural numbers, and
a transaction that fails commits nothing.

| module | what it holds |
|---|---|
| `Common` | identifiers, time, results, the row selection of `ORDER BY ... LIMIT` |
| `TokenBucket` | the HTTP token bucket |
| `RateLimiter` | the durable sliding-window limiter and the cleanup of its events |
| `Organizations` | merging organizations, their submissions and memberships |
| `Registry` | persons, email identities, blind indexes, accounts, installations, aliases, and their erasure |
| `Saga` | deletion requests, metric steps, the outbox, leased erasure jobs |
| `Accounts`, `AccountStore` | challenges, flows, sessions, refresh tokens: each transaction as a function of the tables, and the same transaction as imperative code over a store |
| `Service` | all transactions together as one state machine under a clock that never runs backwards |
| `Challenges`, `Budget`, `Sessions`, `Deletion` | properties of every run of that machine |
| `QueueLaws`, `Completion`, `ErasureLaws`, `SagaLaws` | exactly what each transaction decides and takes, and what that means over runs |
| `Scenario` | one concrete run of that machine that reaches its surprising states |
| `Smtp`, `Delivery` | the outcome of a submission, and the mail senders around the queue |
| `Directory` | keyset pagination over changing data |

Each class holds its tables in fields that its methods reassign. Every method is proved against
the specification function or predicate named in its `ensures`, loops included, and the run properties are
proved about those functions. Optimistic row versions are left out where the same transaction
has just read the row, because a serializable transaction cannot then lose the race; the one
version that a worker carries from one transaction to the next, that of an erasure step, is
kept. Hashes and digests are taken to be free of collisions, and identifiers the server
generates (sessions, owners of mail leases) do not repeat where a lemma says so.

## What the code does that a first reading may miss

- The index lookup goes from the lowest key version up and stops at the first hit, so a
  registration that migrates an email to the current version makes every later registration
  of that email fail until the old row or the key is gone (`Registry.RegistrationCollidesIff`
  gives the exact condition, then `Registry.MigrationLocksOut`, `Registry.LockOutPersists`, a
  run in `Registry.LockOutHappens`).
- A retry of an erasure does not compare the job's version: a stale worker takes the lease
  from the current one (`Saga.StaleRetryBreaksLease`, a run in `Saga.StaleRetryHappens`);
  safety rests on the version check of the erasure itself (`Saga.ErasureIsByLatestClaim`).
- An erasure completes a request from `requested` as well as from `processing`, although the
  transition table has no edge from `requested` to `completed`. It is the only step off the
  table (`Saga.TransitionIsValidIff`, a run in `Saga.RequestedIsCompleted`).
- Fan-out skips aliases whose product or audience is not registered: receipts are promised for
  the announced aliases only (`Saga.AnnouncedIff`, `Saga.UnregisteredIsSkipped`), and a request
  can complete without telling a skipped one (`Saga.CompletedWithoutTelling`).
- A person without any alias in scope cannot ask for a deletion: fan-out reports an error
  (`Service.FindSubject`).
- A defer tests the 48-hour deadline and not the row's own expiry, so a late one raises the
  count of waiting mails (`Challenges.DeferRaisesCountIff`, a run in
  `Scenario.LateDeferHappens`).
- The retry time of a refused reservation is exact for a bucket with one limit; after the limit
  of a bucket is lowered it can be too early (`RateLimiter.RetrySucceedsIff` says when, a run in
  `RateLimiter.LoweredLimitRetriesTooEarly`).
- Erasing a session deletes the flow row whatever challenge it points at. In reachable states
  that challenge is erased with it, so no surviving challenge loses its flow
  (`Deletion.SurvivorsKeepTheirFlow`).
- The cleanup bounds each of its statements separately and can delete a session before its
  tokens (a run in `Scenario.OrphanTokenSurvives`). An erasure removes a token exactly when its session
  is still stored and covered; a token whose session is gone has expired
  (`Deletion.ErasureRemovesTokenIff`).
- An erasure finds verifications by installation and by challenge. One that another part of the
  service created for the same email, without a challenge, survives
  (`ErasureLaws.ErasureTakesVerificationIff`, a run in `Scenario.LoneVerificationSurvives`).
- Deleting a person in one product keeps identities linked across products
  (`Registry.ProductErasureTakesIdentityIff`); deleting the whole person leaves none
  (`Deletion.CompletionLeavesNothing`).

## Model

| member | source | states |
|---|---|---|
| TokenBucket.Limiter.Take | internal/httpapi/server.go:127-141 | decides and moves the level exactly as the specification of a refill followed by a withdrawal |
| TokenBucket.BucketDecidesByWindows | internal/httpapi/server.go:127-141 | a call is admitted if and only if no window ending at it would exceed capacity plus what time refills |
| TokenBucket.AdmissionsAreBounded | internal/httpapi/server.go:113-141 | between any two calls, inclusive, at most capacity + elapsed/interval are admitted |
| TokenBucket.NewLimiterIsBounded | internal/httpapi/server.go:122-141 | the bound holds of every run of calls to the bucket a limiter starts with |
| TokenBucket.LevelStaysInRange | internal/httpapi/server.go:130-139 | the level is between zero and the capacity after every call |
| RateLimiter.SortByBucket | internal/store/public_auth_limits.go:37-50 | the sorted copy is an ordered rearrangement that keeps whether buckets repeat |
| RateLimiter.AuthEvents.BlockedUntil | internal/store/public_auth_limits.go:51-81 | zero when no limit is blocked, otherwise the latest moment a blocked limit still counts its oldest event |
| RateLimiter.AuthEvents.InsertAll | internal/store/public_auth_limits.go:82-97 | one event per bucket, or none at all when any key exists |
| RateLimiter.AuthEvents.Consume | internal/store/public_auth_limits.go:37-97 | all-or-nothing reservation over all buckets, with the reported retry time |
| RateLimiter.AuthEvents.Forget | internal/store/public_account_cleanup.go:67-69 | deletes only events older than 48 hours, oldest first, up to the limit |
| RateLimiter.StaleIffOld | internal/store/public_account_cleanup.go:67-69 | the events a cleanup may delete are exactly those older than 48 hours |
| RateLimiter.WindowsAreNeverOverdrawn | internal/store/public_auth_limits.go:37-97 | with a fixed limit per bucket, every closed window of the full history holds at most the maximum, although cleanup deletes events |
| RateLimiter.CommitsAreCounted | internal/store/public_auth_limits.go:82-97 | a committed reservation adds exactly one new event per limit to the history |
| RateLimiter.RetryIsRefusedUntil | internal/store/public_auth_limits.go:51-81 | every retry up to and including the retry time is still refused |
| RateLimiter.RetrySucceedsAfter | internal/accountbroker/delivery_worker.go:45-59 | one microsecond after the retry time the reservation succeeds in all buckets at once |
| RateLimiter.ReachableStatesAreNotOverdrawn | internal/store/public_auth_limits.go:51-81 | in reachable states no bucket counts more than its limit, which is what the exact retry time relies on |
| RateLimiter.RetrySucceedsIff | internal/store/public_auth_limits.go:51-97 | for any table and limits, the retry after the reported time commits if and only if no limit still counts its maximum then |
| RateLimiter.RetryTimeIsExact | internal/store/public_auth_limits.go:51-97 | in every run with one limit per bucket, a caller that retries after nothing but cleanup is refused up to its retry time and commits in the microsecond after it |
| RateLimiter.LoweredLimitRetriesTooEarly | internal/store/public_auth_limits.go:73-81 | after a run under a maximum of two, lowered to one, the caller is still refused past its retry time |
| Budget.MailStaysWithinBudget | internal/store/public_email_delivery.go:131-136 | in every run with one daily limit at most that many deliveries are claimed in any 24 hours and one in any second |
| Budget.ContactStaysWithinBudget | internal/store/public_email_challenges.go:124-130 | in every run at most six challenges are created for one contact in any fifteen minutes and one in any minute |
| Organizations.OrganizationStore.ResolveSubmission | internal/store/organizations.go:83-136 | attaches a submission to an active organization or fails unchanged |
| Organizations.OrganizationStore.CreateMembership | internal/store/organizations.go:301-389 | one row per existing person, product and active organization, with the terms last given |
| Organizations.OrganizationStore.MergeOrganization | internal/store/organizations.go:138-212 | the source points to the target, and submissions and memberships are rewritten |
| Organizations.OrganizationStore.MoveMemberships | internal/store/organizations.go:214-299 | the loop that inserts and deletes rows yields exactly the rehomed memberships |
| Organizations.NoCycles | internal/store/organizations.go:138-212 | following merge pointers never returns to where it started |
| Organizations.ActiveRootIsUnique | internal/store/organizations.go:391-407 | the only active organization on a pointer path is its end |
| Organizations.EagerAgreesWithLazy | internal/store/organizations.go:138-299 | in every run each submission and membership sits on the active root of the organization it was first attached to, and there are no other memberships |
| Organizations.MergeConservesPairs | internal/store/organizations.go:214-299 | a merge loses and invents no (person, product) pair and empties the source |
| Organizations.MergeKeepsRows | internal/store/organizations.go:238-299 | a moved row keeps its content unless the target already has one for the pair |
| Organizations.MembershipsAreAsGiven | internal/store/organizations.go:214-389 | in every run each membership row carries the terms last given, under the identifier first inserted, as joins, merges and erasures decide looking back |
| Organizations.SubmissionsAreAsGiven | internal/store/organizations.go:83-212 | in every run each submission carries its one review and the merges of the organization it stands on |
| Organizations.CommitsIff | internal/store/organizations.go:66-407 | when each transaction commits, in terms of the rows it needs |
| Registry.SortVersions | internal/cryptokit/blind_index.go:38-49 | the configured key versions, each once, in ascending order |
| Registry.RegistryStore.Lookup | internal/store/identity.go:59-88 | finds the lowest configured version whose index row exists |
| Registry.RegistryStore.RegisterEmailIdentity | internal/store/identity.go:54-204 | joins the identity found by its index and migrates it, or enrolls a new person, then account and installation; undone together on failure |
| Registry.RegistryStore.Link | internal/store/identity.go:260-309 | binds an enabled installation of the product to the person and relabels every alias of it |
| Registry.RegistryStore.EnsureSubjectAlias | internal/store/aliases.go:22-142 | inserts into both alias tables or finds the same pair there |
| Registry.RegistryStore.EraseTarget | internal/store/privacy_erasure.go:304-379 | identities with their index rows, aliases in both tables, installations and, for a whole person, accounts and the person |
| Registry.RunIsGood | internal/store/identity.go:54-228 | in every run all index rows of one email lead to one existing identity, and the alias tables are inverses carrying the right person |
| Registry.RegistrationDeduplicates | internal/store/identity.go:54-204 | a committed registration creates a person exactly when no row, of any version, knows the email, and otherwise returns the person all rows lead to |
| Registry.DuplicatesIffUnconfigured | internal/store/identity.go:318-346 | under any keyring, a committed registration of a known email enrolls a second person if and only if none of the email's index versions is configured, which the startup check rules out |
| Registry.DroppedVersionDuplicatesPerson | internal/store/identity.go:318-346 | such a case: without the startup check one email is enrolled twice |
| Registry.RegistrationCollidesIff | internal/store/identity.go:54-204 | registering a known email commits if and only if no lower version shadows the current row, the account identifier is free where one is needed, and the installation is enabled, of the product and not bound to somebody else |
| Registry.EnrollmentCommitsIff | internal/store/identity.go:112-204 | an unknown email is enrolled if and only if the new identifiers are unused and the installation can be bound |
| Registry.RegistrationReportsAccount | internal/store/identity.go:90-204 | the reported account is the person's, active, and there if asked for; the installation ends up bound to the person |
| Registry.AliasIsEnsuredIff | internal/store/aliases.go:22-142 | an alias is ensured if and only if its subject is usable and neither table knows handle or key otherwise, and then both hold the pair |
| Registry.InstallationIsCreatedIff | internal/store/installations.go:20-86 | an installation is created once, found again while enabled, and refused when disabled or foreign |
| Registry.ErasureTakesExactly | internal/store/privacy_erasure.go:304-503 | which identities, index rows and installations an erasure takes, and that all others stay as they were |
| Registry.ErasureBuriesExactly | internal/store/privacy_erasure.go:317-333 | persons and accounts change only when the whole person goes |
| Registry.ErasureTakesAliasIff | internal/store/privacy_erasure.go:425-470 | an alias goes if and only if it carries the person in scope or belongs to an installation in scope |
| Registry.MigrationLocksOut | internal/store/identity.go:106-110 | after a migrating registration the next one of that email fails for every input |
| Registry.LockOutPersists | internal/store/identity.go:59-110 | only an erasure or a key change ends that |
| Registry.LockOutHappens | internal/store/identity.go:59-110 | a run of one registration and a key rotation after which the email can be registered once more and never again |
| Registry.ProductErasureTakesIdentityIff | internal/store/privacy_erasure.go:495-503 | deleting a person in one product removes an identity if and only if it is theirs and linked within that product |
| Registry.FanoutIsComplete | internal/store/aliases.go:175-215 | fan-out by person finds every alias of the person, their accounts and their installations |
| Registry.ErasureIsForever | internal/store/privacy_erasure.go:304-334 | an erased person never regains an identity, installation, active account or alias |
| Registry.StepLasts | internal/store/identity.go:90-204 | no step revives a person or installation or gives an existing person a new identity |
| Service.FindSubject | internal/store/subject_records.go:272-289 | refuses a missing or deleted person, a disabled or foreign installation, a person without aliases and an unregistered product, and otherwise finds exactly the aliases to tell |
| Saga.AnnouncedIff | internal/store/subject_records.go:330-334 | an alias is announced if and only if it was found and its product is registered with its audience |
| Saga.UnregisteredIsSkipped | internal/store/subject_records.go:329-364 | a creation gives an unregistered alias no step, no event and no promise |
| Saga.CompletedWithoutTelling | internal/store/subject_records.go:330-334 | a run in which a request completes without telling an alias it found |
| Saga.AnnounceEach | internal/store/subject_records.go:330-356 | the fan-out loop makes one step and one event per registered alias, in pairs, or fails |
| Saga.SagaStore.CreateRequest | internal/store/subject_records.go:229-373 | idempotent by workload and key; a deletion gets its metric steps, events and erasure step |
| Saga.DeliveryStarted | internal/store/subject_records.go:499-543 | true exactly when some step or event of the request shows a claim |
| Saga.SagaStore.UpdatePrivacyRequestStatus | internal/store/subject_records.go:417-497 | moves the status along the allowed edges and calls off all children on rejection or cancellation |
| Saga.SagaStore.ClaimOutboxBatch | internal/store/outbox.go:28-100 | takes the oldest claimable events, passing over those of closed requests |
| Saga.SagaStore.MarkOutboxDelivered | internal/store/outbox.go:102-191 | accepts only a completed receipt naming the event, and finishes its step |
| Saga.SagaStore.RetryOutboxEvent | internal/store/outbox.go:193-228 | counts the attempt and parks the event after the last |
| Saga.SagaStore.RescheduleOutboxEvent | internal/store/outbox.go:230-254 | counts the poll and makes the event pending again |
| Saga.SagaStore.ClaimPrivacyErasures | internal/store/privacy_erasure.go:24-111 | leases the oldest erasure steps whose request is open and whose metric steps are all complete |
| Saga.CheckMetricSteps | internal/store/privacy_erasure.go:113-136 | true exactly when every metric step of the request is complete |
| Saga.SagaStore.CompletePrivacyJob | internal/store/privacy_erasure.go:138-253 | commits only for the step's current version, and completes step and request together |
| Saga.SagaStore.RetryPrivacyErasure | internal/store/privacy_erasure.go:255-302 | frees the step whatever version the job carries |
| Saga.TransitionIsValidIff | internal/domain/privacy.go:3-12 | in every step a changed status follows the transition table, unless an erasure completes a request that is still requested |
| Saga.RequestedIsCompleted | internal/store/privacy_erasure.go:156-158 | a run that takes this edge |
| Saga.RunIsSound | internal/store/outbox.go:28-275 | an event is pending without attempts or polls if and only if it was never claimed or called off; receipts, steps and jobs agree, in every run |
| Saga.RunFollows | internal/store/subject_records.go:417-565 | delivered, finished, withdrawn, completed, rejected and cancelled are absorbing |
| Saga.CancellableIffNeverClaimed | internal/store/subject_records.go:438-450 | a request can be rejected or cancelled if and only if it is open and none of its steps or events was ever claimed |
| Saga.CalledOffIsNeverClaimed | internal/store/subject_records.go:545-565 | afterwards none of them is ever claimed |
| Saga.CompletedAtMostOnce | internal/store/privacy_erasure.go:143-237 | no two committed erasures complete the same request |
| Saga.CompletionNeedsReceipts | internal/store/privacy_erasure.go:113-180 | a completed request has, for every alias announced at creation, an event delivered with a completed receipt naming that event |
| Saga.ErasureIsByLatestClaim | internal/store/privacy_erasure.go:159-173 | a committed erasure was done by the step's latest claim for what its request asked |
| Saga.ClaimedJobCanErase | internal/store/privacy_erasure.go:24-253 | the erasure of a job just claimed succeeds and closes its step and request |
| Saga.StaleRetryBreaksLease | internal/store/privacy_erasure.go:255-302 | a retry by any earlier worker makes the current worker's erasure fail |
| Saga.StaleRetryHappens | internal/store/privacy_erasure.go:255-302 | a run in which two workers hold jobs of one step and the older one's retry makes the newer one's erasure fail |
| SagaLaws.ClaimedEventIsLeased | internal/store/outbox.go:40-45 | a claimed event can be claimed again only after five minutes |
| SagaLaws.ClaimedStepIsLeased | internal/store/privacy_erasure.go:34-96 | a claimed erasure step can be claimed again only after five minutes, and counts the claim |
| SagaLaws.BatchTakesIff | internal/store/outbox.go:66-95 | a batch takes exactly the selected events of open requests, or of none |
| SagaLaws.ErasureClaimTakesIff | internal/store/privacy_erasure.go:67-107 | a claim takes exactly the selected steps of open requests whose metric steps have finished |
| SagaLaws.RetryWaits | internal/store/outbox.go:193-228 | a retry counts one attempt; below the maximum the event can be claimed from the given time and not before, at it never |
| SagaLaws.RescheduleWaits | internal/store/outbox.go:230-254 | a reschedule counts one poll and the event can be claimed from the given time and not before |
| SagaLaws.ErasureRetryWaits | internal/store/privacy_erasure.go:272-291 | the same of an erasure step and its count of claims |
| SagaLaws.DeliveryIsRecordedIff | internal/store/outbox.go:102-126 | a delivery is recorded exactly for a claimed event and a completed receipt that names it |
| SagaLaws.CountsAreExact | internal/store/outbox.go:208-241 | in every run attempts are the committed retries and polls the committed reschedules |
| SagaLaws.ParkedIffExhausted | internal/store/outbox.go:198-201 | in every run with one maximum an event is parked if and only if its attempts reached it |
| SagaLaws.ErasureParkedWhenExhausted | internal/store/privacy_erasure.go:272-275 | in every run with one maximum a step waits for a retry only below it and is parked only at or above it |
| SagaLaws.ClaimsAreCounted | internal/store/privacy_erasure.go:82-106 | in every run a step's attempts are the jobs issued for it |
| SagaLaws.CreationIsIdempotent | internal/store/subject_records.go:245-268 | a repeated creation finds the first one; the same key for anything else is a conflict |
| SagaLaws.ErasureIsPlanned | internal/store/subject_records.go:357-363 | a new deletion has one erasure step, claimable from now on and not before |
| SagaLaws.MetricStepIsPlanned | internal/store/subject_records.go:330-356 | every other step it adds is about an alias and has an event of its own, claimable from now on and not before |
| SagaLaws.UpdateCommitsIff | internal/store/subject_records.go:417-450 | the exact condition under which a status update commits |
| SagaLaws.UpdateStores | internal/store/subject_records.go:451-477 | it stores the given status, withdraws the request's own children if that ends it, and touches no other request |
| AccountStore.Store.CreatePublicEmailChallenge | internal/store/public_email_challenges.go:64-163 | idempotent creation under capacity and contact limits, cancelling the challenge it replaces |
| AccountStore.Store.ClaimPublicEmailDelivery | internal/store/public_email_delivery.go:40-160 | resolves an abandoned delivery as uncertain, or closes or leases the oldest due challenge |
| AccountStore.Store.DeferPublicEmailDelivery | internal/store/public_email_delivery.go:183-230 | only the lease's owner puts the challenge back, both rows expiring at the queue deadline |
| AccountStore.Store.FinishPublicEmailDelivery | internal/store/public_email_delivery.go:246-287 | only the lease's owner settles the delivery; settled ones are acknowledged unchanged |
| AccountStore.Store.CompletePublicEmailChallenge | internal/store/public_email_completion.go:18-165 | proof, registration, session and consumption commit together; a rejected code commits only its counter |
| AccountStore.Store.AuthorizedPublicAccountSession | internal/store/public_account_sessions.go:94-144 | all authority is read from the same state |
| AccountStore.Store.RotatePublicAccountRefresh | internal/store/public_account_sessions.go:164-227 | exchanges an unconsumed token of an authorized session, revokes the session on a consumed one |
| AccountStore.Store.RevokePublicAccountSession | internal/store/public_account_sessions.go:229-244 | ends the session of that product |
| AccountStore.Store.CleanupPublicAccountState | internal/store/public_account_cleanup.go:14-71 | each bounded statement acts on what the ones before it left |
| AccountStore.Store.EraseInstallationState | internal/store/public_account_erasure.go:13-37 | nothing of the installation is left in scope |
| AccountStore.Store.ErasePersonChallenges | internal/store/public_account_erasure.go:39-88 | the challenges for the emails of the erased identities go, with flows and verifications |
| AccountStore.Store.EraseAccountRows | internal/store/public_account_erasure.go:89-128 | sessions, tokens, flows and product accounts of each account go |
| AccountStore.Store.EraseJob | internal/store/privacy_erasure.go:304-379 | the nested loops remove exactly the set of rows the erasure specifies |
| Challenges.StepMoves | internal/store/public_email_delivery.go:137-155 | each step of the whole service moves a challenge row along one of six edges; only a claim leases it and only a defer by the owner puts it back |
| Challenges.RunIsSound | internal/domain/public_accounts.go:26-42 | in every run the state fixes code hash, ciphertext and lease; attempts reach five exactly when locked; live challenge and verification agree on expiry and index |
| Challenges.TerminalIsAbsorbing | internal/store/public_email_completion.go:181-198 | a terminal challenge never changes again |
| Challenges.AcceptedCodeIsFresh | internal/store/public_email_completion.go:53-80 | an accepted code is younger than ten minutes since the last claim and the challenge younger than 48 hours and ten minutes |
| Challenges.CreationFits | internal/store/public_email_challenges.go:105-123 | every committed creation leaves at most its limit waiting, counting a correction as a swap |
| Challenges.CountRisesOnlyLate | internal/store/public_email_delivery.go:209-222 | no other step raises that count, except a defer after the row's own expiry, by one |
| Challenges.DeferRaisesCountIff | internal/store/public_email_delivery.go:209-222 | a committed defer raises the count if and only if it requeues a row that has expired |
| Scenario.LateDeferHappens | internal/store/public_email_delivery.go:209-222 | a reachable state in which a defer brings an expired row back into the count |
| Challenges.QueueIsBounded | internal/store/public_email_challenges.go:105-123 | over whole runs the waiting mails never exceed the limit by more than the late defers |
| QueueLaws.CreationIsIdempotent | internal/store/public_email_challenges.go:64-82 | a repeated request finds its challenge; another one under the identifier, or a malformed one, is refused |
| QueueLaws.CreationDecides | internal/store/public_email_challenges.go:83-158 | the exact condition under which a challenge is created, and everything that is stored then |
| QueueLaws.CreationRespectsCapacity | internal/store/public_email_challenges.go:105-123 | afterwards at most the limit of unexpired challenges is requested or being delivered |
| QueueLaws.ClaimPicksOldest | internal/store/public_email_delivery.go:53-83 | an abandoned delivery of one of the products comes first, and the oldest of its kind |
| QueueLaws.ClaimDecides | internal/store/public_email_delivery.go:58-126 | which picked challenges are settled as uncertain, cancelled or expired instead of being sent |
| QueueLaws.ClaimLeases | internal/store/public_email_delivery.go:126-155 | a due, current challenge is leased for ninety seconds, its code provable for ten minutes, exactly if the send budget has room |
| QueueLaws.LeaseIsRespected | internal/store/public_email_delivery.go:53-71 | in every run a claim touches a delivery under way only ninety seconds after it was claimed |
| QueueLaws.DeferDecides | internal/store/public_email_delivery.go:183-230 | when a defer puts the challenge back, when it expires it, and both rows afterwards |
| QueueLaws.DeferredMailWaits | internal/store/public_email_delivery.go:216-223 | in every run a deferred mail is not leased again before its retry time |
| QueueLaws.OnlyOwnerReports | internal/store/public_email_delivery.go:196-264 | nobody but the owner settles or defers a delivery, and a settled one is acknowledged unchanged |
| QueueLaws.MalformedReportIsRefused | internal/store/public_email_delivery.go:184-190 | impossible outcomes, missing challenges and retry times that are past or more than a day away are refused |
| QueueLaws.IdleClaimIsRefused | internal/store/public_email_delivery.go:41-46 | a claim needs a limit from one to ten thousand and a stuck or due challenge |
| QueueLaws.CompletionDecides | internal/store/public_email_completion.go:27-67 | which proofs are judged, and what an overdue, a wrong and a right code do |
| QueueLaws.WrongCodesAreCounted | internal/store/public_email_completion.go:57-67 | in every run a challenge's attempts are the wrong codes judged for it |
| QueueLaws.CleanupTakesOnlyDead | internal/store/public_account_cleanup.go:20-57 | a cleanup expires only overdue live challenges and deletes only those expired for 48 hours |
| QueueLaws.CleanupTakesOnlyExpired | internal/store/public_account_cleanup.go:58-62 | it deletes only expired tokens and sessions and touches no product account |
| QueueLaws.CleanupSparesFlows | internal/store/public_account_cleanup.go:55-66 | a flow loses only a deleted session and goes only without a session and a kept challenge |
| QueueLaws.CleanupIsThorough | internal/store/public_account_cleanup.go:58-62 | a statement that found fewer rows than its limit leaves no expired token or session |
| QueueLaws.CleanupExpiresAll | internal/store/public_account_cleanup.go:20-57 | and no overdue live challenge or dead one |
| Completion.SessionIsIssuedIff | internal/store/public_email_completion.go:18-165 | in every run a proof yields a session if and only if it is the right code in time for the current challenge, well formed, its registration commits and no deletion is open |
| Completion.IssueStores | internal/store/public_email_completion.go:115-155 | every row stored then, and that the flow's previous session has ended |
| Smtp.Submit | internal/accountmail/smtp.go:148-176 | no error means the message was taken; an error that is not uncertain means it was not |
| Smtp.UncertainIffUnknown | internal/accountmail/smtp.go:119-128 | an outcome is uncertain exactly when the replies are consistent both with acceptance and with loss |
| Smtp.TemporaryMeansNotTaken | internal/accountmail/smtp.go:132-138 | a temporary error is a 4yz refusal and the message was not taken |
| Delivery.RunIsSound | internal/accountbroker/delivery.go:21-95 | with any number of crashing and late workers under fresh owners, at most one of them may still send for a life of a challenge |
| Delivery.OnlyRefusedMailIsRepeated | internal/accountbroker/delivery.go:33-95 | every submission for a challenge but the last ended in a definite temporary refusal |
| Delivery.AtMostOneMailIsTaken | internal/store/public_email_delivery.go:39-160 | at most one mail per life of a challenge is ever taken by a mail server |
| Delivery.ReportsAreTruthful | internal/accountbroker/delivery.go:79-95 | in every run a worker that still holds its challenge stores delivered only if the message was taken, failed only if it was not, uncertain exactly if the replies fit both, and keeps the code provable unless it failed |
| Delivery.RecheckStopsTheStale | internal/accountbroker/delivery.go:69-78 | a worker goes on to send only if its lease and the code are still good |
| Sessions.OneActiveSession | internal/store/public_email_completion.go:119-145 | in every run an installation has at most one active session per product and its flow names it |
| Sessions.FamilyIsOneChain | internal/store/public_account_sessions.go:164-227 | the tokens of an unexpired session are one chain without repetition, only the last unconsumed, all expiring with the session |
| Sessions.ReplayRevokes | internal/store/public_account_sessions.go:183-194 | presenting a consumed unexpired token always revokes its session |
| Sessions.DeadFamilyNeverRefreshes | internal/store/public_account_sessions.go:72-91 | after that no token of the family is ever exchanged and the session is never authorized |
| Sessions.RevocationKills | internal/store/public_account_sessions.go:229-244 | a revocation commits exactly for a stored session of the product, ends it, and changes nothing else |
| Sessions.RevokedForever | internal/store/public_account_sessions.go:72-91 | whatever follows, a revoked session is never authorized and none of its tokens is exchanged |
| Sessions.AuthorizedIff | internal/store/public_account_sessions.go:94-144 | a session is authorized if and only if every row it depends on is in good standing and leads back to it |
| Sessions.RotationDecides | internal/store/public_account_sessions.go:164-227 | a live token is exchanged exactly for an authorized session, and a consumed one ends it |
| Sessions.UselessTokenIsRefused | internal/store/public_account_sessions.go:165-190 | an unknown or expired token, one whose session is gone, or one offered as its own successor is refused |
| Sessions.OneSessionPerChallenge | internal/store/public_email_completion.go:133-151 | a life of a challenge yields at most one session |
| Deletion.RunIsSafe | internal/store/privacy_erasure.go:304-379 | every session's installation is bound to its account's person, and completed requests stay cleared, in every run |
| Deletion.NothingCoveredIsAuthorized | internal/store/public_account_sessions.go:113-117 | an authorized session is covered by no deletion request but a rejected or cancelled one |
| Deletion.NothingCoveredIsRefreshed | internal/store/public_account_sessions.go:195-198 | neither is a refreshed one |
| Deletion.NothingCoveredIsIssued | internal/store/public_email_completion.go:110-114 | neither is a newly issued one, before and after completion |
| Deletion.IssuedSessionWorks | internal/store/public_email_completion.go:115-155 | a session just issued is authorized under the registered identity and its first refresh token can be exchanged |
| Deletion.CompletionLeavesNothing | internal/store/privacy_erasure.go:408-493 | after completion no covered session, unexpired token, product account or product identity is left, and a person deleted as a whole has no identity, bound installation, active account or alias |
| Deletion.ErasureRemovesTokenIff | internal/store/public_account_erasure.go:160-166 | in every run a committed erasure removes a token if and only if its session is stored and covered; a token whose session is gone has expired |
| Scenario.OrphanTokenSurvives | internal/store/public_account_cleanup.go:58-62 | a reachable state in which a bounded cleanup has deleted a session before its second token, which the erasure of the person then does not find |
| ErasureLaws.ErasureTakesChallengeIff | internal/store/public_account_erasure.go:15-88 | a challenge goes if and only if it is on an erased installation or its digest is indexed to the erased person in scope |
| ErasureLaws.ErasureTakesVerificationIff | internal/store/public_account_erasure.go:152-158 | a verification goes if and only if it is on an erased installation or its own challenge goes |
| ErasureLaws.ErasedEmailIsForgotten | internal/store/public_account_erasure.go:39-88 | after a committed erasure in any run no challenge for an erased email is stored, nor the verification of a live one |
| Scenario.LoneVerificationSurvives | internal/store/public_account_erasure.go:152-158 | a reachable state in which a verification of the erased email without a challenge of its own survives |
| ErasureLaws.ErasureTakesProfileIff | internal/store/public_account_erasure.go:121-123 | a product account goes if and only if its account's person is erased in that product |
| ErasureLaws.ErasureTakesFlowIff | internal/store/public_account_erasure.go:35-36 | a flow goes if and only if its installation is erased, or it has no session and its challenge goes |
| Deletion.NothingMoreToDelete | internal/store/subject_records.go:571-609 | once a whole person or an installation is deleted, no further request for it can be created |
| Deletion.OutsideIsUntouched | internal/store/public_account_erasure.go:152-166 | an erasure leaves sessions it does not cover, their tokens and their flows exactly as they were |
| Deletion.SurvivorsKeepTheirFlow | internal/store/public_account_erasure.go:152-166 | a challenge that survives an erasure keeps the very flow row that leads to it |
| Deletion.CompletedDeletionToldEveryAlias | internal/store/subject_records.go:276-356 | a completed deletion of a person has a completed receipt for every alias of the person, their accounts and installations in registered products |
| Directory.DirectoryAccounts | internal/store/product_directory.go:29-59 | the first eligible accounts after the cursor, in order, nobody skipped |
| Directory.ReadEach | internal/productdirectory/directory.go:86-114 | each candidate is read again on its own; those visible throughout get through, in order, and nobody unseen does |
| Directory.Query | internal/productdirectory/directory.go:60-125 | entries in order, each seen eligible and without a pending deletion; everyone visible throughout is there; the next cursor lies strictly ahead |
| Directory.Walk | internal/productdirectory/directory.go:71-125 | following the cursors ends and returns every account visible throughout exactly once, in increasing order, whatever changes between calls |
| Directory.EligibleIffRegistered | internal/store/product_directory.go:14-24 | in every run an account is eligible exactly if it has a product account |
| Directory.DeletedIsHidden | internal/store/product_directory.go:80-86 | in every run nobody whose deletion was asked for and not called off is shown |
| Directory.UndeletedIsShown | internal/store/product_directory.go:63-93 | anyone eligible without such a request is shown |

## Left out

- Cryptography (HMAC, envelopes, signatures, key management): digests are injective values, ciphertexts a flag.
- The YDB client, SQL and transaction retry after an unknown commit: a transaction is one atomic step.
- Token codecs, JSON, base64, email parsing, HTTP handlers, CORS, configuration, maintenance mode, schema definitions.
- SMTP networking, TLS and message building: only the classification of outcomes is modelled.
- Floating point in the token bucket: credit is an exact count of refill time.
- The sender and its worker loop are events of `Delivery.Next` and not one method, because other transactions commit between the calls; the limit of five jobs per tick and the timers are not modelled.
- The outbox worker's retry delays and its own check of receipts before the store checks them again.
- The count of mail attempts, which only names audit rows.
- Telemetry preferences, consents, declared profiles, audit rows, and rotation checks other than the one for blind indexes.
- Clearing of organization rows during erasure is modelled in `Organizations` by person and product; rows keyed by an installation are not.
- Registry.DroppedVersionDuplicatesPerson: the startup check is modelled on the blind index table; the service also refuses versions still named by verifications and challenges, which no lookup reads.
- Saga.SagaStore.CreateRequest: takes what the subject check and the alias read found as an argument; `Service.FindSubject` computes it and every run of `Service` ties the two together.
- Service.Possible: other writers of verification rows (ownership proof, claims, releases, expiry) appear as one step that marks or deletes a row, because only expiry and index matter here; a new verification is taken to have an identifier that no challenge uses, where the service inserts under a fresh UUID.
