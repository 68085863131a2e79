# Handyman marketplace: verified model

A Dafny model of the four parts of the marketplace server in which separate
calls, runs or tables have to agree, with proofs about all of their histories.

- **Service requests.** `Marketplace.dfy` gives, for every endpoint, the tables
  it leaves behind as a function of the tables each of its reads saw and of the
  tables its conditional write finds. `MarketplaceRuns.dfy` runs any sequence of
  calls, each read as many writes out of date as it likes, and proves the
  invariant of every run; `RunInduction.dfy` holds the induction of all exact
  theorems. `Agreement.dfy`, `LifecycleTheorems.dfy`, `Transitions.dfy`,
  `Dashboards.dfy`, `RoundTrips.dfy`, `Verification.dfy`, `Endpoints.dfy` (exactly
  when an endpoint succeeds) and `Ownership.dfy` (who changes what) hold the theorems,
  `StaleReopening.dfy` and `StaleReviews.dfy` runs that break what the theorems
  exclude, and `MarketplaceServices.dfy` the services as classes over mutable
  tables, proved to do what the functions say.
- **Refresh sessions.** `Sessions.dfy`, `SessionRuns.dfy`, `SessionTheorems.dfy`
  and `SessionServices.dfy`, laid out the same way.
- **Local-to-Neon migration.** `Migration.dfy` (one run as a function of disk,
  buckets, rows and failures), `AvatarRewrites.dfy` (what happens to one stored
  URL), `MigrationTheorems.dfy`, `BusyMigration.dfy` (beside other writers),
  `MigrationReports.dfy` (what each list of a report holds),
  `MigrationWitnesses.dfy`, `MigrationCli.dfy` (the loops), `DirectoryListing.dfy`
  (the walk and the sort); and what it rests on,
  `StorageKeys.dfy` (keys, buckets, URLs) and `StorageConfig.dfy` (accepted
  environments).
- **Cache.** `MemoryCache.dfy`, `CacheTheorems.dfy`, `CacheServices.dfy`.
- **Pagination.** `Pagination.dfy`.

`Prelude.dfy` holds Option and Result, `Histories.dfy` what a read of any
staleness sees. Check everything with `dafny verify dfyconfig.toml`.

## Assumptions

- A transaction, or a single `updateMany`, is atomic and isolated. The source
  itself says that the plain re-read in the transaction of `applyToRequest` is
  weaker than that (`src/modules/handyman/handyman.service.ts:525-527`).
- Everything a call reads before its write may be as stale as it likes, each read
  separately: an age of `n` is the store `n` writes ago, age 0 is current. This
  covers every interleaving of any number of calls in flight, and more: the ages
  of one call need not follow the order of its reads. So what is proved of all
  runs holds of the source; every run given as an example keeps the source's order
  of reads, where an earlier read is at least as old. A call is call-atomic when
  all its ages are 0.
- Unique indexes are the fields `profileOf`, `applicationOf` and `sessionOf`. New
  row ids are arbitrary; a clash is an error, as a primary key makes it.
- Events are the last field of the store, appended with the commit they report.
- The token hash is injective, and no two calls draw the same `jti`
  (`FreshTokens`). `chains` and `slots` only record what was handed out.
- The disk does not change between migration runs; a failed write changes
  nothing; each run may fail at any step for any set of keys.
- Clocks are arguments. In the cache they need not even be monotone, except for
  the readings of one `mget`.

## What the proofs found

- Two guards test the status and not the assignee. A stale
  `cancelAssignedRequest` reopens a request under its next assignee:
  `AgreementTheorem` says exactly which runs are free of that,
  `StaleReopenHappens` gives one that is not. There the displaced
  handyman's dashboard no longer matches their ACCEPTED applications, and applying
  to the request again is refused (`DashboardTheorem`, `AppliesExactly`). A stale
  `startRequest` starts the next assignee's job (`StaleStartHappens`).
- The writes of verification test nothing. `VettingTheorem` names the guards that
  are missing, and `StaleReviews.dfy` has a run for each: a rejection or a second
  `completeProfile` undoes an approval and leaves `verifiedAt` set, a deletion or a
  submission leaves DOCUMENTS_SUBMITTED without a document.
- Convergence of the migration needs no condition on the keys, nor that no one
  else writes rows: a stored URL always keeps its shortest matching key, and that
  key decides where it ends.
- Idempotence and the dry run do need one. The file's comment calls a re-run of a
  finished migration a matter of skipping keys
  (`src/cli/migrate-local-storage.ts:21-26`); the rows may be rewritten on every
  run (`RestlessHappens`), and a dry run may count differently
  (`MisleadingHappens`). Both conditions are exact, can be read off the keys and
  the base URL, and hold when no avatar key is a trailing part of another.
- The comment that external avatar URLs are never touched
  (`src/cli/migrate-local-storage.ts:30-31`) rests on their ending in no migrated
  key, and nothing else protects them (`UntouchedExactly`, `ForeignUrlIsTaken`).
- A cancelled request keeps its assignee; only its status says that no one works
  on it (`CancelExactly`).
- The dashboard's four queries are separate. Beside a write that takes a request
  from one counted status to another it may show the numbers of neither side,
  exactly when the queries of these two see different sides (`TornExactly`), and a
  number the handyman never had (`TornHappens`).
- The wrapped function may differ between equal keys as long as none of its
  results there can be served: null and errors never are.
- The empty string as a cache key defeats eviction: as the oldest key it is never
  evicted, and while it stays nothing else is (`SizeTheorem`, `GrowsWithoutBound`).
- A negative page number above `-totalPages` returns items (`PageHasItemsExactly`).

## Model

| member | source | states |
|---|---|---|
| Agreement.AgreementTheorem | src/modules/handyman/handyman.service.ts:686-709 | Over every interleaved run, however stale the reads: in every store each ASSIGNED, IN_PROGRESS, AWAITING_CONFIRMATION or COMPLETED request has exactly one ACCEPTED application, of its assignee, and every OPEN or CANCELLED one has none, if and only if no `cancelAssignedRequest` of the run committed on an assignee other than the one it read |
| Agreement.RequestAgreement | src/modules/handyman/handyman.service.ts:686-709 | The same of each request by itself: it agrees in every store of the run if and only if no reopening of that request was stale |
| Agreement.AtomicRunsAgree | src/modules/service-requests/service-requests.service.ts:204-225 | When every call reads what it writes, the same agreement holds with no hypothesis at all |
| Agreement.CancelAssignedAgrees | src/modules/handyman/handyman.service.ts:686-709 | A reopening keeps any other request in agreement, and its own if and only if the caller is still the assignee at commit |
| Agreement.StepAgrees | src/modules/service-requests/service-requests.service.ts:314-346 | Every write of every endpoint keeps the agreement of each request, unless it is a stale reopening of it: that always breaks it |
| Agreement.AcceptAgrees | src/modules/service-requests/service-requests.service.ts:314-346 | Acceptance makes the accepted application the only ACCEPTED one of its request, even when both rows it read were stale, and disturbs no other |
| Agreement.CancelAgrees | src/modules/service-requests/service-requests.service.ts:204-225 | Cancelling leaves no ACCEPTED application behind, even where the request did not agree before, and disturbs no other request |
| StaleReopening.StaleReopenHappens | src/modules/handyman/handyman.service.ts:687-690 | A complete run, from empty tables, in which a handyman whose second call had read profile and request while assigned backs out twice and thereby reopens the request under its next assignee, who is refused when applying to it again |
| StaleReopening.StaleStartHappens | src/modules/handyman/handyman.service.ts:646-649 | Such a run in which the former assignee starts the job instead: it runs under the next assignee, though no reopening was stale |
| MarketplaceRuns.RunIsSound | src/modules/handyman/handyman.service.ts:528-572 | Every store of every interleaved run keeps the foreign keys and unique indexes, PENDING only on OPEN, timestamps matching statuses and the event ledger, and is a later state of every store before it |
| LifecycleTheorems.ClosedForGood | src/modules/service-requests/service-requests.service.ts:414-457 | COMPLETED and CANCELLED are absorbing: the whole request row is frozen |
| LifecycleTheorems.AssigneeFrozen | src/modules/handyman/handyman.service.ts:727-777 | From IN_PROGRESS on the assignee never changes and the status only moves forward |
| LifecycleTheorems.StampsMatch | src/modules/service-requests/service-requests.service.ts:204-225 | `completedAt` and `cancelledAt` are set exactly in COMPLETED and CANCELLED; every engaged request has an assignee and no OPEN one has |
| LifecycleTheorems.CompletionNamesAssignee | src/modules/service-requests/service-requests.service.ts:414-457 | However stale the row `confirmCompletion` read, its event names the true, non-null assignee and only the status and the timestamp change |
| LifecycleTheorems.SubmitterIsAssignee | src/modules/handyman/handyman.service.ts:727-777 | However stale its reads, a successful `completeRequest` comes from the assignee at commit |
| LifecycleTheorems.CallerStillHolds | src/modules/handyman/handyman.service.ts:646-690 | A successful `startRequest` or `cancelAssignedRequest` comes from the assignee at commit if and only if the log since the request was read does not end, for that request, in an assignment to someone else |
| LifecycleTheorems.RejectsOnlyOnOpen | src/modules/service-requests/service-requests.service.ts:356-407 | `rejectApplication` re-checks the application alone, yet commits only while the request is OPEN, and changes that one row |
| LifecycleTheorems.PendingIsOpen | src/modules/service-requests/service-requests.service.ts:336-343 | In every store of every run a PENDING application is on an OPEN request |
| LifecycleTheorems.LedgerTheorem | src/modules/service-requests/service-requests.service.ts:451-454 | The event log replays to the row: assigned minus unassigned is 1 with an assignee and 0 without, the last one names the assignee, a completed or cancelled event occurs exactly once for a request so closed and never otherwise, and names its assignee |
| MarketplaceRuns.LedgerKept | src/modules/service-requests/service-requests.service.ts:227-230 | Any write of one request row that emits an event recording just that change keeps log and rows in step |
| MarketplaceRuns.RequestWriteKeeps | src/modules/service-requests/service-requests.service.ts:314-351 | Any such write that leaves nothing PENDING on the request keeps the whole invariant |
| LifecycleTheorems.DashboardTheorem | src/modules/handyman/handyman.service.ts:96-125 | For every handyman the ACCEPTED applications number `ongoingCount` plus `completedCount` in every store of a run, if and only if no reopening of the run was stale |
| LifecycleTheorems.Displaced | src/modules/handyman/handyman.service.ts:686-709 | A stale reopening leaves its displaced assignee one ACCEPTED application too many |
| Dashboards.TornExactly | src/modules/handyman/handyman.service.ts:108-117 | Beside any one write of any run, each of the four queries seeing the store before or after it: the dashboard shows the numbers before or those after, if and only if no request of the handyman goes from one counted status to another with the queries of these two on different sides |
| Dashboards.TornHappens | src/modules/handyman/handyman.service.ts:108-117 | A run from empty tables in no store of which the handyman has more than one ongoing request, and queries beside its last write that show two |
| Dashboards.RowTears | src/modules/handyman/handyman.service.ts:108-117 | The same of one row written |
| LifecycleTheorems.AcceptedAreHeld | src/modules/handyman/handyman.service.ts:383-412 | The one-to-one correspondence behind it, between a handyman's ACCEPTED applications and the requests held or completed |
| LifecycleTheorems.OngoingIsListing | src/modules/handyman/handyman.service.ts:383-393 | The three counts summed are the total over the three statuses |
| LifecycleTheorems.AtMostOneRow | prisma/schema.prisma:367 | Never two application rows for one request and handyman, in any run |
| LifecycleTheorems.AppliesExactly | src/modules/handyman/handyman.service.ts:503-572 | In every run, with an OPEN request, a VERIFIED handyman serving its category can apply exactly when none of their applications there is PENDING or ACCEPTED, gets one that is PENDING, and is otherwise refused as a duplicate |
| LifecycleTheorems.NoTrapdoor | src/modules/handyman/handyman.service.ts:503-572 | Where the request was never reopened stale, only a PENDING application stands in the way |
| RoundTrips.AcceptExactly | src/modules/service-requests/service-requests.service.ts:267-354 | Acceptance succeeds exactly on the customer's own OPEN request and one of its PENDING applications; that one wins, the other PENDING ones lose, nothing else moves |
| RoundTrips.CancelExactly | src/modules/service-requests/service-requests.service.ts:182-233 | Cancelling succeeds exactly for the customer of an OPEN or ASSIGNED request; its PENDING and ACCEPTED applications are rejected, its assignee is kept, and nothing else moves |
| RoundTrips.WithdrawExactly | src/modules/handyman/handyman.service.ts:586-614 | Withdrawing succeeds exactly on the handyman's own PENDING application and changes that row alone |
| RoundTrips.ReapplyingUndoesWithdrawing | src/modules/handyman/handyman.service.ts:546-562 | Withdraw and then apply again: the store is exactly what it was |
| RoundTrips.WithdrawingUndoesApplying | src/modules/handyman/handyman.service.ts:563-572 | Apply for the first time and then withdraw: all is as before but for the row, which stays as WITHDRAWN |
| RoundTrips.BackingOutUndoesAccepting | src/modules/handyman/handyman.service.ts:686-716 | Accept and then back out: the request rows are exactly what they were, the log gains one assigned and one unassigned event, the winner is WITHDRAWN and the losers REJECTED |
| Endpoints.ConfirmExactly | src/modules/service-requests/service-requests.service.ts:414-457 | Alone, exactly the request's own customer confirms its completion, exactly in AWAITING_CONFIRMATION |
| Endpoints.ApplyExactly | src/modules/handyman/handyman.service.ts:466-573 | Alone, an application succeeds exactly for a VERIFIED handyman who services the category of an OPEN request and has nothing PENDING or ACCEPTED there |
| Endpoints.CompleteProfileExactly | src/modules/handyman/handyman.service.ts:150-215 | Alone, exactly a user without a profile or with an UNVERIFIED one completes it, with one or more different categories; the result is PROFILE_COMPLETE in just these, and the reviewer and time of verification are left alone |
| Endpoints.SubmitExactly | src/modules/handyman/handyman.service.ts:327-370 | Alone, exactly a PROFILE_COMPLETE or REJECTED profile with a document can be submitted |
| Endpoints.RejectedMayTryAgain | src/modules/handyman/handyman.service.ts:333-336 | A rejected profile with a document can be submitted again and then approved, which leaves the row but for status, reviewer and time as it was |
| Ownership.EveryoneTouchesTheirOwn | src/modules/service-requests/service-requests.service.ts:414-457 | In every run, whatever the call and however stale its reads: the requests, applications, profiles and documents it changes are the caller's own. A customer changes only requests they created and the applications to these; a handyman only requests assigned in the store read, their own applications, profile and documents; an administrator only the profile named |
| Ownership.OnlyTheCustomerConfirms | src/modules/service-requests/service-requests.service.ts:421-423 | In every run no one but the customer of the request at commit confirms its completion, however stale the row read |
| Ownership.RejectedIsNotFinal | src/modules/handyman/handyman.service.ts:333-336 | In every run a REJECTED profile with a document can be submitted again and then approved |
| Transitions.OnlyLegalMoves | src/modules/handyman/handyman.service.ts:616-777 | One write of any call of any run, however stale its reads, takes a request only along one of six edges, and an application only along its own, of the request named and, where the handyman acts, of the profile the caller was read to have; new requests are OPEN, new applications PENDING and the applicant's |
| Transitions.CompletedTheLongWay | src/modules/service-requests/service-requests.service.ts:414-457 | No shortcut: in every run a COMPLETED request was OPEN, ASSIGNED, IN_PROGRESS and AWAITING_CONFIRMATION before, in that order |
| Transitions.CameFrom | src/modules/handyman/handyman.service.ts:646-649 | Each status after OPEN is entered only from the one before it |
| Transitions.OnlyLegalReviews | src/modules/admin/admin-verification.service.ts:102-186 | Any call of any run moves profiles at most one rung of the verification ladder, each rung by one kind of call, if and only if it does not commit on a status off that rung; a call that reads what it writes never does |
| Verification.VettingTheorem | src/modules/handyman/handyman.service.ts:327-370 | Over every interleaved run: in every store DOCUMENTS_SUBMITTED has a document, VERIFIED is the same as `verifiedAt` being set and has a reviewer, every status but UNVERIFIED has categories and every application is of a VERIFIED profile, if and only if no call committed on a row that was VERIFIED by then (complete, submit, reject), without a document left (submit), or on the last document of a submitted row (delete) |
| Verification.StepVets | src/database/repositories/handyman-profile.repository.ts:136-151 | After stores that keep all of that, exactly such a call breaks it |
| Verification.VerifiedForGood | src/modules/admin/admin-verification.service.ts:102-186 | No row of a run ever leaves VERIFIED, if and only if no complete, submit or reject of the run committed on a VERIFIED row |
| Verification.VerifiedIsFrozen | src/modules/admin/admin-verification.service.ts:102-140 | No VERIFIED row of a run ever changes but in its categories, if and only if, besides, no second approval put another reviewer or time on one |
| Verification.NeverUnverifiedAgain | src/modules/handyman/handyman.service.ts:150-215 | No row of any run returns to UNVERIFIED |
| Verification.VettedRunsStayVerified | src/modules/admin/admin-verification.service.ts:142-186 | While every store keeps the promises, no row leaves VERIFIED |
| Verification.AtomicRunsVet | src/modules/handyman/handyman.service.ts:327-370 | Runs of calls that read what they write keep all promises, and their VERIFIED rows change but in the categories |
| Verification.FillVets | src/modules/handyman/handyman.service.ts:173-193 | A completion, however stale, keeps the promises if and only if it does not overwrite a VERIFIED row |
| Verification.DeleteVets | src/modules/handyman/handyman.service.ts:314-325 | Deleting a document keeps the promises if and only if it is not the last one of a submitted row |
| Verification.SubmitVets | src/modules/handyman/handyman.service.ts:327-370 | A submission, however stale, keeps the promises if and only if its row is not VERIFIED and has a document at commit |
| StaleReviews.StaleDeclineUndoesApproval | src/modules/admin/admin-verification.service.ts:142-186 | A run from empty tables in which two reviews read DOCUMENTS_SUBMITTED: the later rejection undoes the approval and leaves `verifiedAt` set |
| StaleReviews.StaleFillUndoesApproval | src/modules/handyman/handyman.service.ts:150-193 | A run in which the slower of two completions takes an approved profile back to PROFILE_COMPLETE |
| StaleReviews.StaleDeleteStripsSubmission | src/modules/handyman/handyman.service.ts:314-325 | A run in which a deletion that read before the submission leaves DOCUMENTS_SUBMITTED without a document |
| StaleReviews.StaleSubmitHasNoDocument | src/modules/handyman/handyman.service.ts:342-352 | A run in which a submission commits after its only document was deleted |
| MarketplaceServices.ServiceRequestsService.Create | src/modules/service-requests/service-requests.service.ts:41-60 | A new OPEN request without assignee or timestamps, and its created event |
| MarketplaceServices.ServiceRequestsService.Cancel | src/modules/service-requests/service-requests.service.ts:182-233 | Row by row what the endpoint's function in `Marketplace` says, for every staleness of its reads: guarded by the status read, applications closed in the same transaction, the event carries the assignee at commit |
| MarketplaceServices.ServiceRequestsService.AcceptApplication | src/modules/service-requests/service-requests.service.ts:267-354 | Row by row what the endpoint's function in `Marketplace` says, for every staleness of its reads: both counts decide, and losing the second race rolls the first update back |
| MarketplaceServices.ServiceRequestsService.RejectApplication | src/modules/service-requests/service-requests.service.ts:356-407 | Row by row what the endpoint's function in `Marketplace` says, for every staleness of its reads: guarded by the application's status alone |
| MarketplaceServices.ServiceRequestsService.ConfirmCompletion | src/modules/service-requests/service-requests.service.ts:414-457 | Row by row what the endpoint's function in `Marketplace` says, for every staleness of its reads: the event names the assignee of the row read |
| MarketplaceServices.HandymanService.GetDashboard | src/modules/handyman/handyman.service.ts:96-125 | The loop sums the counts of the three ongoing statuses, each query seeing a store of its own; a missing profile is created first |
| MarketplaceServices.HandymanService.EnsureProfile | src/database/repositories/handyman-profile.repository.ts:58-77 | Creates a profile unless the user has one, whoever created it |
| MarketplaceServices.HandymanService.CompleteProfile | src/modules/handyman/handyman.service.ts:150-215 | Row by row what the endpoint's function in `Marketplace` says, for every staleness of its reads: completes an UNVERIFIED profile or inserts a complete one |
| MarketplaceServices.HandymanService.UpdateProfile | src/modules/handyman/handyman.service.ts:217-245 | Row by row what the endpoint's function in `Marketplace` says, for every staleness of its reads: categories are replaced only when some are given |
| MarketplaceServices.HandymanService.UploadDocument | src/modules/handyman/handyman.service.ts:254-302 | Records a document of the caller's profile |
| MarketplaceServices.HandymanService.DeleteDocument | src/modules/handyman/handyman.service.ts:314-325 | Row by row what the endpoint's function in `Marketplace` says, for every staleness of its reads: refused while documents are under review, deletes only the caller's own |
| MarketplaceServices.HandymanService.SubmitDocuments | src/modules/handyman/handyman.service.ts:327-370 | Row by row what the endpoint's function in `Marketplace` says, for every staleness of its reads: only from PROFILE_COMPLETE or REJECTED and with a document |
| MarketplaceServices.HandymanService.ApplyToRequest | src/modules/handyman/handyman.service.ts:466-573 | Row by row what the endpoint's function in `Marketplace` says, for every staleness of its reads: a WITHDRAWN or REJECTED row is reopened, otherwise one is inserted under the unique index |
| MarketplaceServices.HandymanService.WithdrawApplication | src/modules/handyman/handyman.service.ts:586-614 | Row by row what the endpoint's function in `Marketplace` says, for every staleness of its reads |
| MarketplaceServices.HandymanService.StartRequest | src/modules/handyman/handyman.service.ts:616-659 | Row by row what the endpoint's function in `Marketplace` says, for every staleness of its reads: guarded by the status alone |
| MarketplaceServices.HandymanService.CancelAssignedRequest | src/modules/handyman/handyman.service.ts:667-719 | Row by row what the endpoint's function in `Marketplace` says, for every staleness of its reads: guarded by the status alone, not by the assignee |
| MarketplaceServices.HandymanService.CompleteRequest | src/modules/handyman/handyman.service.ts:727-777 | Row by row what the endpoint's function in `Marketplace` says, for every staleness of its reads |
| MarketplaceServices.AdminVerificationService.ApproveHandyman | src/modules/admin/admin-verification.service.ts:102-140 | Row by row what the endpoint's function in `Marketplace` says, for every staleness of its reads: reviewer and time of verification are set |
| MarketplaceServices.AdminVerificationService.RejectHandyman | src/modules/admin/admin-verification.service.ts:142-186 | Row by row what the endpoint's function in `Marketplace` says, for every staleness of its reads: the time of verification is left alone |
| MarketplaceServices.WriteVerification | src/database/repositories/handyman-profile.repository.ts:136-151 | An absent reviewer or time leaves the stored one alone |
| SessionTheorems.SingleUse | src/modules/auth/auth.service.ts:135-182 | Over every interleaving of refreshes, logins and logouts: a refresh token is exchanged successfully at most once |
| SessionTheorems.TradedIsSpent | src/database/repositories/refresh-session.repository.ts:48-64 | Once exchanged, a token is the current token of no session ever again |
| SessionTheorems.Lineage | src/modules/auth/auth.service.ts:135-182 | In every store: one chain of tokens per session row, chains disjoint and without repetition, only a chain's last token matches its row, and the row's expiry is that token's |
| SessionTheorems.RevokedForGood | src/database/repositories/refresh-session.repository.ts:34-64 | Once a row is revoked neither it nor its chain ever changes again |
| SessionTheorems.RevokedChainIsDead | src/modules/auth/auth.service.ts:135-182 | No token of a revoked session is exchanged after the revocation, however early the refresh read |
| SessionTheorems.LogoutEverywhere | src/modules/auth/auth.service.ts:126-133 | After a logout without a token no token handed to the user before it is exchanged |
| SessionTheorems.LogoutOneDevice | src/database/repositories/refresh-session.repository.ts:34-39 | A logout with a token revokes exactly the live row of that user whose current token it is |
| SessionTheorems.RowsCountLogins | src/modules/auth/auth.service.ts:210-216 | A user's session rows number the logins and sign-ups that created them: refresh and logout add and drop none |
| SessionTheorems.TradeLeavesOthers | src/database/repositories/refresh-session.repository.ts:48-64 | A refresh changes no row but its own |
| SessionTheorems.RefreshSucceedsExactly | src/modules/auth/auth.service.ts:135-182 | Uninterleaved, a refresh succeeds exactly for an active user and the last token of one of their live, unexpired chains |
| SessionTheorems.LoginExactly | src/modules/auth/auth.service.ts:73-102 | With an unused token a login succeeds if and only if the account has just this password, a verified address and is active; otherwise each of the three is refused by its own error, in that order |
| SessionTheorems.OnlyThePasswordSignsIn | src/modules/auth/auth.service.ts:80-87 | In every run, however stale the account read: a login succeeds only if in some store of the run the account had just this password and was verified and active |
| SessionTheorems.LoginOpensOne | src/modules/auth/auth.service.ts:210-216 | A login adds one row, live, with the hash and the expiry of the token, and changes no other |
| SessionTheorems.RegisterExactly | src/modules/auth/auth.service.ts:44-71 | Registration succeeds exactly for a new user with an unused token, and adds the account, unverified and inactive, and one session |
| SessionTheorems.NewAccountsWait | src/modules/auth/auth.service.ts:89-102 | A new account is refused at login until it is verified and activated |
| SessionTheorems.LogoutExactly | src/modules/auth/auth.service.ts:126-133 | A logout revokes exactly the user's live rows, of the token given or of all, and changes nothing else |
| SessionTheorems.RefreshAnswers | src/modules/auth/auth.service.ts:135-182 | However stale its reads, a refresh that succeeds read an active user and their live, unexpired row of the token, finds that row live with the token at commit, and rewrites just its hash and expiry; and which error it is refused with |
| SessionRuns.RunIsSound | src/modules/auth/auth.service.ts:184-216 | The invariant behind all of these: index, hash, expiry, owner and place of every token, and every store a later state of those before |
| SessionRuns.RefreshKeeps | src/modules/auth/auth.service.ts:135-182 | A successful refresh, however stale its reads, appends to one live chain whose last token was the one presented |
| SessionServices.RefreshSessionRepository.Create | src/database/repositories/refresh-session.repository.ts:10-22 | Inserts a live row with the expiry it is given, under the unique index on hashes |
| SessionServices.RefreshSessionRepository.FindActiveByTokenHash | src/database/repositories/refresh-session.repository.ts:24-32 | The row of that hash, if it is neither revoked nor expired |
| SessionServices.RefreshSessionRepository.RevokeByTokenHash | src/database/repositories/refresh-session.repository.ts:34-39 | Revokes the user's live row of that hash, no other |
| SessionServices.RefreshSessionRepository.RevokeAllForUser | src/database/repositories/refresh-session.repository.ts:41-46 | Revokes every live row of the user |
| SessionServices.RefreshSessionRepository.Rotate | src/database/repositories/refresh-session.repository.ts:48-64 | Compare-and-set: false, and nothing changed, unless the row still has the expected hash and is live |
| SessionServices.AuthService.Register | src/modules/auth/auth.service.ts:44-71 | An account that gets no session is removed again |
| SessionServices.AuthService.Login | src/modules/auth/auth.service.ts:73-114 | Refused without the password, a verified address and an active account; otherwise one new session |
| SessionServices.AuthService.Logout | src/modules/auth/auth.service.ts:126-133 | One device with a token, every device without |
| SessionServices.AuthService.RefreshTokens | src/modules/auth/auth.service.ts:135-182 | The function the theorems are about, for every staleness of its reads; a lost race is an invalid token |
| MigrationTheorems.Converges | src/cli/migrate-local-storage.ts:219-299 | After any runs over the same disk, with any listings, dry runs and failures of stat, head, read, upload, query and update, one clean run leaves exactly the buckets and rows a single clean run would have; no condition on the keys is needed |
| BusyMigration.ConvergesBesideWriters | src/cli/migrate-local-storage.ts:219-299 | After any hindered runs beside any other writers of rows, before and between each query and update, one clean run leaves exactly what it would have left from the last values others wrote, had no run gone before |
| BusyMigration.NoWriteIsLost | src/cli/migrate-local-storage.ts:111-123 | After any such runs each row holds the last value others wrote to it or the URL of a migrated key, the second only if that value ends in such a key, and then both have the same shortest such key |
| BusyMigration.AloneIsTheRun | src/cli/migrate-local-storage.ts:195-319 | With no other writers a run is the run of the other theorems |
| MigrationTheorems.RerunLists | src/cli/migrate-local-storage.ts:219-269 | A re-run copies nothing, reports every earlier copied key as present, and keeps the conflicts, unsafe and not-public lists |
| MigrationTheorems.RerunUpdatesNothingIffSettled | src/cli/migrate-local-storage.ts:271-299 | A re-run updates 0 rows, for every table of rows, if and only if no migrated avatar key other than `k` ends the new URL of a key `k` that itself ends in no other key |
| MigrationTheorems.RerunUpdatesNothing | src/cli/migrate-local-storage.ts:271-299 | In particular a re-run changes nothing at all when no key is a trailing part of another |
| MigrationTheorems.DryRunForetellsIffOrdered | src/cli/migrate-local-storage.ts:219-299 | For every table of rows a dry run returns the report of the real run if and only if no migrated avatar key ends the new URL of a later one |
| MigrationTheorems.DryRunIsTheReport | src/cli/migrate-local-storage.ts:219-299 | In particular when no key is a trailing part of another; and the dry run changes no bucket and no row |
| MigrationTheorems.DryRunLists | src/cli/migrate-local-storage.ts:219-277 | All lists of a dry run are those of the real run, whatever the keys |
| MigrationTheorems.ObjectsOnlyAdded | src/cli/migrate-local-storage.ts:235-263 | No run alters or removes an object that existed; it adds exactly the disk's bytes of the keys it reports copied |
| MigrationTheorems.OneListEach | src/cli/migrate-local-storage.ts:219-269 | Every listed key lands in exactly one of copied, already present, conflicts, unsafe and failed |
| MigrationReports.ConflictsExactly | src/cli/migrate-local-storage.ts:237-249 | A key is a conflict if and only if it is listed and safe, its size on disk and in the bucket are known, and its bucket holds an object of another size |
| MigrationReports.PresentExactly | src/cli/migrate-local-storage.ts:237-241 | It is already present if and only if that object has the size of the file |
| MigrationReports.CopiedExactly | src/cli/migrate-local-storage.ts:252-260 | It is copied if and only if there is no such object and neither read nor upload fails |
| MigrationReports.UnsafeExactly | src/cli/migrate-local-storage.ts:219-226 | It is unsafe if and only if it is no storage key |
| MigrationReports.FailedExactly | src/cli/migrate-local-storage.ts:264-268 | It failed if and only if sizing or copying it failed, or the rewrite of its rows |
| MigrationReports.DryFailuresExactly | src/cli/migrate-local-storage.ts:264-298 | A dry run reports as failed just what it tried: sizing, reading and querying, and no write |
| MigrationReports.TurnFailsExactly | src/cli/migrate-local-storage.ts:286-298 | The rewrite of a key fails with its query, or, in a real run with a row to repoint, with its update |
| MigrationReports.NotPublicExactly | src/cli/migrate-local-storage.ts:271-275 | Not public are exactly the copied or present keys under `avatars` whose address would need a signature |
| MigrationReports.ReportedIsInPlace | src/cli/migrate-local-storage.ts:237-260 | After a real run, with any failures, every key reported copied or present has an object of the file's size in its bucket |
| MigrationReports.OnlyToWhatIsThere | src/cli/migrate-local-storage.ts:237-299 | And beside any other writers each row is as last written or at the URL of an avatar key that is in place by then, at an address that resolves |
| MigrationReports.CountsWhatItChanges | src/cli/migrate-local-storage.ts:288-290 | A turn counts just the rows whose value it changes, whatever others wrote in between |
| MigrationReports.FailureChangesNothing | src/cli/migrate-local-storage.ts:294-298 | A turn that fails changes no row and counts none |
| MigrationReports.QueryIsLike | src/cli/migrate-local-storage.ts:101-110 | The candidates are the rows like `%/key` in the sense of SQL, `_` being any character and `%` any run |
| MigrationTheorems.ChangesExactly | src/cli/migrate-local-storage.ts:280-293 | For any over-matching query and any change to the rows since: exactly the rows that ended with the key, differed from the new URL and still hold the value read are repointed, and counted |
| MigrationTheorems.UntouchedExactly | src/cli/migrate-local-storage.ts:271-299 | A stored URL, of whatever host, that is not the new one of a migrated avatar key survives a clean run if and only if it ends in no migrated avatar key |
| MigrationTheorems.LikeOverMatches | src/cli/migrate-local-storage.ts:101-110 | The LIKE query never misses an exact match |
| AvatarRewrites.IdleIffSettled | src/cli/migrate-local-storage.ts:271-299 | The condition for one stored value: a second pass leaves every value alone if and only if the keys are settled |
| AvatarRewrites.FoldForgets | src/cli/migrate-local-storage.ts:280-293 | Two stored values with the same shortest matching key end up equal, which is why partial runs do not matter |
| AvatarRewrites.OrderedPredicts | src/cli/migrate-local-storage.ts:286-289 | When no key ends a later key's URL a dry run is right about every key and every stored value |
| AvatarRewrites.Miscounts | src/cli/migrate-local-storage.ts:286-289 | When one does, there is a stored value whose updates a dry run miscounts |
| MigrationWitnesses.NestedKeysMislead | src/cli/migrate-local-storage.ts:286-293 | In any listing over any buckets: wherever a migrated avatar key is a trailing part of one listed later, some table of rows gets two different reports |
| MigrationWitnesses.MisleadingHappens | src/cli/migrate-local-storage.ts:190 | It happens on a disk with `avatars/x` and `avatars/avatars/x`, listed and sorted as they are, for every name that sorts before `a` |
| MigrationWitnesses.RestlessHappens | src/cli/migrate-local-storage.ts:271-299 | On that disk, whatever the name, with a public base URL that ends in `/avatars`, every run updates rows anew |
| MigrationWitnesses.NestedBaseNeverRests | src/cli/migrate-local-storage.ts:271-299 | Likewise for any listing and buckets when the base URL ends with what separates two nested keys |
| MigrationWitnesses.ForeignUrlIsTaken | src/cli/migrate-local-storage.ts:280-293 | On that disk a row that points to another host, at a path that ends in a migrated key, is repointed |
| MigrationCli.MigrateLocalStorage | src/cli/migrate-local-storage.ts:195-319 | Listing, sorting and the two loops over buckets and rows changed in place return and do exactly what the theorems are about, for the sorted keys and beside any other writers of rows; each directory that could not be listed heads the failures |
| MigrationCli.MigrateKeys | src/cli/migrate-local-storage.ts:219-299 | The two loops for any listing without repetition, beside any other writers; alone, the run of the theorems |
| MigrationCli.CopyFiles | src/cli/migrate-local-storage.ts:219-269 | The first loop sorts every key into its list, in order, and uploads just the copied ones |
| MigrationCli.CopyFile | src/cli/migrate-local-storage.ts:219-268 | One key: validated, sized, looked up, copied only if absent |
| MigrationCli.RepointRows | src/cli/migrate-local-storage.ts:271-299 | The second loop: rows, failures, not-public keys and the count, with rows changed by others before and after each query |
| MigrationCli.RepointKey | src/cli/migrate-local-storage.ts:279-298 | One key's rows with a query result that may be out of date |
| MigrationCli.AvatarTable.Update | src/cli/migrate-local-storage.ts:111-123 | One compare-and-set per row; the count is the number of rows still holding the value read |
| MigrationCli.S3CompatibleStorageProvider.Upload | src/storage/providers/s3-compatible-storage.provider.ts:130-149 | Writes the routed bucket and returns the key's URL, or refuses an unsafe key and writes nothing |
| MigrationCli.S3CompatibleStorageProvider.Delete | src/storage/providers/s3-compatible-storage.provider.ts:151-154 | Deletes from the bucket an upload of the key went to |
| MigrationCli.S3CompatibleStorageProvider.HeadObject | src/cli/migrate-local-storage.ts:409-417 | The size of an object, or that it is absent |
| DirectoryListing.ListsEveryFileOnce | src/cli/migrate-local-storage.ts:164-191 | The keys listed are exactly the paths that lead through readable directories to a regular file, each once |
| DirectoryListing.ReportsEveryBar | src/cli/migrate-local-storage.ts:168-178 | Reported unreadable are exactly the directories, reached through readable ones, that cannot be read, each once |
| DirectoryListing.PrecedesByUnits | src/cli/migrate-local-storage.ts:190 | The order of the sort is that of the UTF-16 units of the keys |
| DirectoryListing.ListedInOrder | src/cli/migrate-local-storage.ts:190 | Sorting puts them in order and keeps that |
| DirectoryListing.SortedIs | src/cli/migrate-local-storage.ts:190 | The sorted sequence is in order and a rearrangement |
| DirectoryListing.ListLocalKeys | src/cli/migrate-local-storage.ts:164-191 | The sorted keys and the unreadable directories, the root itself among them |
| DirectoryListing.Listing.Walk | src/cli/migrate-local-storage.ts:168-187 | The recursive walk appends to both lists what the functions say; an unreadable directory is recorded and skipped |
| StorageKeys.UrlShape | src/storage/providers/s3-compatible-storage.provider.ts:156-171 | For every safe key and every URL shape the URL is the bucket's base, a slash and the key |
| StorageKeys.UrlInjective | src/storage/providers/s3-compatible-storage.provider.ts:156-171 | Different keys of one bucket have different URLs |
| StorageKeys.PrefixCaptures | src/storage/providers/s3-compatible-storage.provider.ts:120-128 | A prefix captures the keys filed under it if and only if it has no slash |
| StorageKeys.SplitHead | src/storage/providers/s3-compatible-storage.provider.ts:125 | Splitting takes the text before the first separator off and splits the rest on its own |
| StorageKeys.SafeKeyBySegments | src/storage/storage.util.ts:9-25 | The keys accepted are exactly those of at most 512 characters, beginning with a letter or digit, whose segments are made of letters, digits, dots, underscores and dashes and are not empty, `.` or `..` |
| StorageConfig.TrimIdempotent | src/config/configuration.ts:154 | A trimmed string neither begins nor ends with white space, so trimming twice is trimming once |
| StorageConfig.FindIssues | src/config/env.validation.ts:201-288 | No issue is raised if and only if the routing is sound and every credential of the driver is present |
| StorageConfig.FindRoutingIssues | src/config/env.validation.ts:201-271 | Each of the four routing issues is raised exactly for its own fault, and none if and only if the routing is sound |
| StorageConfig.AddMissing | src/config/env.validation.ts:273-288 | One issue for each required setting that is blank, and no other |
| StorageConfig.DocumentsStayPrivate | src/config/env.validation.ts:222-236 | In every accepted environment a key of the document prefix is routed to the private bucket |
| StorageConfig.DocumentsPrivateExactly | src/storage/providers/s3-compatible-storage.provider.ts:120-128 | Whatever the settings: every document key goes to the private bucket if and only if no public bucket is set, the document prefix is not listed, or both buckets are one; the rules exclude the rest |
| StorageConfig.DocumentKeysStayPrivate | src/modules/handyman/handyman.service.ts:276-278 | So is every key the upload endpoint generates for a document |
| StorageConfig.BucketsDiffer | src/config/env.validation.ts:244-261 | In every accepted environment the two bucket names differ, though they are compared trimmed and the private one is used untrimmed |
| StorageConfig.PrefixesCaptureTheirKeys | src/storage/providers/s3-compatible-storage.provider.ts:120-128 | In every accepted environment with a public bucket a key goes there if and only if its first segment is one of the prefixes |
| StorageConfig.PrefixesAreTheEntries | src/config/configuration.ts:155-158 | For every text of the setting: the prefixes are exactly its comma-separated entries, trimmed, but for blank ones |
| StorageConfig.EntriesCaptureTheirKeys | src/config/env.validation.ts:208-220 | In every accepted environment with a public bucket each entry of the setting that is not blank sends its keys there |
| StorageConfig.NothingElseIsCaptured | src/storage/providers/s3-compatible-storage.provider.ts:120-128 | And no key of another first segment goes there |
| StorageConfig.DefaultPrefixes | src/config/configuration.ts:155-158 | Without the setting the prefixes are `avatars` and `receipts` |
| StorageConfig.SomethingIsPublic | src/config/env.validation.ts:263-271 | An accepted public bucket is never one that nothing is routed to |
| StorageConfig.TrimIs | src/config/configuration.ts:154 | Trimming takes off white space at both ends and nothing else |
| StorageConfig.SpaceExactly | src/config/configuration.ts:154 | White space is that of ECMAScript, character by character |
| StorageConfig.CredentialsExactly | src/config/env.validation.ts:273-288 | For each driver the settings without which it is refused |
| StorageConfig.NeonAddress | src/storage/providers/s3-compatible-storage.provider.ts:156-171 | Under the Neon settings a key's URL is the public base if there is one, else endpoint and bucket, then a slash and the key |
| StorageConfig.SlashCapturesNothing | src/config/env.validation.ts:208-220 | The rule against slashes is needed: such a prefix captures no key |
| CacheTheorems.WrapIsTransparentIff | src/cache/cache.service.ts:119-145 | Over every run of calls, clock readings, evictions, deletions, cleanups, null results and throwing functions, with no one else writing those keys, a wrapped function answers as the function does if and only if equal keys mean equal results wherever one of them is a value that can be served |
| CacheTheorems.Retention | src/cache/providers/memory-cache.provider.ts:48-56 | A newly inserted key that is not deleted, cleared or found expired outlives the next `maxEntries - 1` sets of any keys, amid any other operations |
| CacheTheorems.ReadsBackForItsLifetime | src/cache/providers/memory-cache.provider.ts:75-89 | Unless set again it reads back what was stored for exactly its lifetime, and null afterwards |
| CacheTheorems.SetReads | src/cache/providers/memory-cache.provider.ts:75-89 | Setting any key, new or not, makes it read back for its lifetime and leaves what every other key reads as, but for the one oldest key that gives way |
| CacheTheorems.SetOrder | src/cache/providers/memory-cache.provider.ts:48-56 | Keys stay in the order of their first insertion, also when set again |
| CacheTheorems.CleanupIsInvisible | src/cache/providers/memory-cache.provider.ts:29-41 | Clean-up removes exactly the entries that have expired, and no later call can tell |
| CacheTheorems.TouchIsInvisible | src/cache/providers/memory-cache.provider.ts:58-73 | Dropping an expired entry on lookup cannot be told either |
| CacheTheorems.OptionsHold | src/cache/providers/memory-cache.provider.ts:20-24 | Bound and lifetime given as options, 1000 entries and 300 seconds without, hold in every run |
| CacheTheorems.SizeBounded | src/cache/providers/memory-cache.provider.ts:48-56 | In particular with non-empty keys it never does |
| CacheTheorems.SizeTheorem | src/cache/providers/memory-cache.provider.ts:48-56 | Over every run from construction: the cache holds at most `maxEntries` entries at every time, if and only if that bound is positive and no new key was ever set on a full cache whose oldest key is the empty string |
| CacheTheorems.GrowsWithoutBound | src/cache/providers/memory-cache.provider.ts:48-56 | Set the empty string first and then any other keys: whatever its bound, the cache keeps them all, any number of them |
| CacheTheorems.OutgrowsExactly | src/cache/providers/memory-cache.provider.ts:48-56 | Of one full cache: it outgrows its bound exactly when its oldest key is the empty string and the key set is new |
| CacheTheorems.OldestGoes | src/cache/providers/memory-cache.provider.ts:48-56 | The retention bound is tight: the next set of another key pushes the oldest out |
| CacheTheorems.ApplyValid | src/cache/providers/memory-cache.provider.ts:29-97 | Every operation keeps keys and entries in step and no key twice |
| CacheTheorems.StepRetains | src/cache/providers/memory-cache.provider.ts:75-89 | No operation brings a key more than one place nearer to eviction, and only a set does |
| CacheServices.MemoryCacheProvider.constructor | src/cache/providers/memory-cache.provider.ts:20-24 | An empty cache; a limit or lifetime of zero falls back to the default |
| CacheServices.MemoryCacheProvider.Get | src/cache/providers/memory-cache.provider.ts:58-73 | The live value, or null; an expired entry is dropped |
| CacheServices.MemoryCacheProvider.Set | src/cache/providers/memory-cache.provider.ts:75-89 | Evicts if full, then stores with its expiry; a key already there keeps its place |
| CacheServices.MemoryCacheProvider.EvictIfNeeded | src/cache/providers/memory-cache.provider.ts:48-56 | Drops the oldest entry of a full cache unless its key is empty |
| CacheServices.MemoryCacheProvider.Cleanup | src/cache/providers/memory-cache.provider.ts:29-41 | The deleting loop leaves exactly the entries that have not expired, in order |
| CacheServices.MemoryCacheProvider.Del | src/cache/providers/memory-cache.provider.ts:91-97 | Drops the key, keeps the order of the rest |
| CacheServices.MemoryCacheProvider.Exists | src/cache/providers/memory-cache.provider.ts:115-130 | Whether there is a live entry |
| CacheServices.MemoryCacheProvider.Clear | src/cache/providers/memory-cache.provider.ts:132-138 | Drops everything |
| CacheServices.MemoryCacheProvider.Mget | src/cache/providers/memory-cache.provider.ts:140-142 | Every key reads as if it had been looked up alone |
| CacheServices.MemoryCacheProvider.Mset | src/cache/providers/memory-cache.provider.ts:144-146 | The sets one after the other |
| CacheServices.CacheService.GetOrSet | src/cache/cache.service.ts:119-128 | The cached value unless it is null, else what the factory answers, which is stored unless the factory threw |
| CacheServices.Wrapped.Call | src/cache/cache.service.ts:136-145 | A call answers as `fn` does, errors included, and leaves the cache faithful to it |
| CacheServices.CallStores | src/cache/cache.service.ts:119-128 | After a miss the result is served for its lifetime without another run of the function |
| CacheServices.SetAllIsARun | src/cache/providers/memory-cache.provider.ts:144-146 | A batch is the run of its sets, in order, each at its own time |
| Pagination.PagesTile | src/common/utils/pagination.util.ts:16-26 | For every limit of at least 1 pages 1 to `totalPages` put together are the array |
| Pagination.NextPageIffItemsRemain | src/common/utils/pagination.util.ts:3-14 | `hasNextPage` holds exactly when the pages so far leave items out |
| Pagination.PreviousPageIffItemsBefore | src/common/utils/pagination.util.ts:12 | Of a non-empty array `hasPreviousPage` holds exactly when the pages before hold items |
| Pagination.NegativePage | src/common/utils/pagination.util.ts:16-26 | A negative page number counts pages back from the end |
| Pagination.NegativeLimit | src/common/utils/pagination.util.ts:4 | With a negative limit too `totalPages` is the least integer not below the quotient |
| Pagination.PageHasItemsExactly | src/common/utils/pagination.util.ts:16-26 | A page has items exactly from 1 to `totalPages`, and for the negative page numbers above `-totalPages`, where `slice` counts from the end |
| Pagination.CeilingIsLeast | src/common/utils/pagination.util.ts:4 | `totalPages` is the least number of pages that holds every item |

## Left out

- DashboardTheorem: compares counts of one store; GetDashboard is stated for queries that each see their own, and TornExactly says when their numbers are those of a store beside one write; queries spread over several writes are not characterised.
- AppliesExactly: the four reads of the application are current, because an application that reads stale rows may well be refused.
- OneListEach: counts failures of the first loop; a copied avatar whose row rewrite fails is listed as failed a second time.
- MigrateLocalStorage: log lines are not modelled, and the disk is given as the bytes of each key beside the tree of names.
- RepointRows: other writers add and overwrite rows; that they delete some is not modelled.
- GetOrSet: as a method it runs without interruption; the interleavings between its lookup and its store are those of WrapIsTransparentIff, where a store may come at any time.
- Call: likewise.
- Register: password hashing and the verification mail are not modelled, and the removal of an account without a session is part of the same step.
- CeilingIsLeast: division over the integers; the floating-point quotient of the source rounds to the same ceiling below 2^53 items.
- UploadDocument: the row only; the upload before it, the clean-up after a failed insert and the sniffing of the file's type are not modelled.
- Cached values are values: a caller that mutates an object it got from the cache, and so changes the cached one, is not modelled.
- Descriptive fields (title, budget, location, biography, cover message, rejection reason) and the request's `update`, which writes only those.
- Deletion of users and their rows, sign-in with Google, access tokens, and the mail flows of password reset and address verification.
- Anomalies of PostgreSQL's isolation levels inside one transaction.
- Event listeners, mail, queues, controllers, guards and input validation of single requests.
- `delByPattern` and the parsing of allowed origins, which rest on regular expressions and the URL parser.
- Replacement patterns such as `$&` in a bucket name inside a host-style URL.
- The other rules of the environment schema; the storage rules are the ones that decide routing.
- The `local` and `cloudinary` drivers, signed URLs and content types.
