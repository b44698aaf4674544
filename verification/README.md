# A verified model of the backend's protocols, queries and parsers

The backend is a multi-tenant NestJS service over PostgreSQL. Its hard logic is a handful of protocols that race over
shared rows, one query transformation, a cursor walk and a few small parsers. This project models them in Dafny and
proves what they are for.

Database tables are maps (or, where order matters, sequences of rows). Each awaited database, queue or store call is
one atomic step, together with the clock readings that go into it; the clock never runs backwards. Any number of calls
are in flight at once, and a crash drops a call between two of its steps. The service classes (`TokenService`,
`GeoAuditWorker`, `SiteAuditsService`, `AuthService`, `FilesService`) change their tables in place; their methods are
proved to be runs of the protocols while other actors run during every await, and the protocol theorems hold of all
runs.

| files | what they model |
|---|---|
| `TokenStore`, `TokenProtocol`, `TokenSafety`, `TokenPurge`, `TokenCleaning`, `TokenAnswers`, `TokenService` | refresh-token rotation, reuse detection, purge |
| `AuditProtocol`, `AuditInvariant`, `AuditSafety`, `AuditDeadline`, `AuditCap`, `AuditAnswers`, `AuditServices` | the life of a site audit: creators, redelivered workers, reapers, retention |
| `TenantScope`, `TenantIsolation` | the tenant-scope extension as a transformation of query arguments, and what it preserves |
| `Pagination`, `PaginationWalk`, `PaginationOrder` | `parseSort`, the three `list` methods, walks by `nextCursor`, what the lists show first |
| `Lockout`, `LockoutOverlap` | failed logins and the timed lock, one at a time and overlapping |
| `UrlGuard`, `Ipv6Spelling`, `AddressRanges`, `AddressVerdicts` | address classification: expansion of IPv6 text, CIDR membership |
| `Robots`, `RobotsReading`, `RobotsText`, `RobotsLines` | the one-pass robots.txt reader against its groups |
| `PlainText` | the text normaliser on UTF-16 code units |
| `FileProtocol`, `FileSafety`, `FilesServices` | file rows and stored objects |
| `Arithmetic`, `Bits`, `Digits`, `Strings`, `Sets`, `Wrappers` | shared notions |

## Findings

Where the code and its documentation part, the model follows the code and the difference is stated exactly.

- The ADR on tokens says that reuse revokes the whole family. A rotation of the same user that has already claimed its
  token, and is still about to insert the successor, survives the revoke-all. The user is locked out until a new login
  if and only if no such rotation is in flight (`TokenSafety.LockoutIsExact`; `LockoutFails` reaches such a state).
- The purge forgets revoked tokens after seven days while their expiry may be later. A reuse right after the purge goes
  unnoticed in a way later calls can tell exactly when the purge dropped an unexpired, long-revoked row whose owner
  still has a usable token (`TokenPurge.PurgeObservableIff`; `PurgeForgets` reaches such a table).
- A comment in `rotate` says that a benign retry cannot trip reuse detection. That holds exactly for retries whose
  look-up saw the token live (`TokenSafety.ReuseIsDetectedIff`); one that looks the token up after the claim does trip
  it (`TokenSafety.RetryAfterClaimTrips`).
- Deleting an expired row is not always without effect on calls in flight: it takes the claim away from a rotation that
  passed its checks before the token expired, and it has no effect otherwise (`TokenCleaning.CleaningIsUnnoticedIff`,
  with `PurgeRacesClaim`).
- The cap of five audits in flight, given without qualification in `docs/security.md` and ADR 0010, is soft, as the
  code's comment says: with K overlapping creators the bound is 4 + K, and it is attained.
- The unguarded FAILED write after a rejected enqueue can overwrite a completed audit if and only if the rejected job
  was queued after all and the audit is still PENDING then (`AuditSafety.UnguardedWriteReliesOnTheQueue`, with
  `OverwriteIsReached`). COMPLETED is absorbing exactly as long as no creator is about to make that write
  (`AuditSafety.TerminalIsAbsorbing`).
- `skip: 1` skips the first row found, so a page is exact if and only if the cursor row still matches or nothing
  follows it (`PaginationWalk.CursorConditionIsExact`, with `SkippedWitness`). A walk over a changing table never repeats
  an id, and misses a row that matched throughout exactly if the row its cursor named was gone while the other lay
  ahead, or no longer matched and the other was the first behind it (`PaginationWalk.ReturnedIff`).
- That takes sort keys that do not change. Audits may be sorted by their status, and such a walk can return an audit
  twice (`PaginationWalk.RepeatWitness`).
- The scoped client looks the cursor row up in the whole table. The tenant's slice alone determines the outcome if and
  only if the operation is no read, the cursor names no row of another tenant, or nothing is left from that row on
  (`TenantIsolation.SliceDecidesIff`, with `CursorConditionIsNeeded`). A page asked for from another tenant's row on
  therefore depends on whether that row is still there (`TenantIsolation.InterferenceWitness`); rows are never
  affected.
- A filter's own `tenantId` is overridden, so a filter naming another tenant returns the caller's rows instead of none,
  exactly when some are reached (`TenantIsolation.DiagramIff`, with `ForeignFilterWitness`).
- The NAT64 test compares 32 bits of `64:ff9b::` where the comment and `docs/security.md` give 96. It only ever blocks
  more, on an exactly described set of addresses (`AddressRanges.Nat64TestIsWider`, with `WiderWitness`).
- The robots.txt reader forgets an agent whose groups hold no rule and judges it by `*`, against section 2.2.1 of
  RFC 9309; `RobotsText.RulelessAgentsFallBack` says when the verdict differs, and `FallBackWitness` gives a file.
- The text normaliser is not idempotent: a cut behind a space leaves a space that a second pass removes
  (`PlainText.Again`, with `AgainWitness`), and a cut inside a surrogate pair leaves half of it
  (`PlainText.OnlyTheCutBreaksPairs`, with `CutPairWitness`).
- The lockout bound proved, max · (⌊D/L⌋ + 1) wrong passwords in a span D, is attained (`Lockout.RateBoundIsTight`).
  The lock check and the increment are separate steps, so k overlapping logins raise it to
  (max - 1 + k) · (⌊D/L⌋ + 1), plus the calls that failed before they were counted (`LockoutOverlap.OverlapBound`), and
  that is attained too (`LockoutOverlap.OverlapBoundIsTight`).

## Model

| member | source | states |
|---|---|---|
| `TokenProtocol.RunConcat` | src/modules/auth/token.service.ts:50-85 | runs of the interleaved steps compose, so a call is a run however its pauses are filled |
| `TokenProtocol.NextKeepsInv` | src/modules/auth/token.service.ts:50-112 | every atomic step of every actor (login, look-up, checks, claim, successor, revoke, revoke-all, purge, crash) keeps the invariant: a family has one youngest member and only it can be live or between claim and successor |
| `TokenProtocol.RunKeepsInv` | src/modules/auth/token.service.ts:50-112 | the invariant holds in every reachable state |
| `TokenSafety.AtMostOneHolder` | src/modules/auth/token.service.ts:68-78 | in every reachable state a login family has at most one of: an unrevoked stored token, a rotation that has claimed but not yet created its successor |
| `TokenSafety.ClaimedAtMostOnce` | src/modules/auth/token.service.ts:72-78 | over a whole run each token is claimed successfully at most once: rotation is single-use under concurrent presentations |
| `TokenSafety.FamiliesAreChains` | src/modules/auth/token.service.ts:47-85 | every family ever built is a chain from its login, each member but the last claimed exactly once |
| `TokenSafety.Lineage` | src/modules/auth/token.service.ts:47-85 | every token's ancestors form a chain back to its login, one per age |
| `TokenSafety.NoFork` | src/modules/auth/token.service.ts:72-84 | no two tokens have the same predecessor: a retry cannot mint two families |
| `TokenSafety.ReuseRevokesFamily` | src/modules/auth/token.service.ts:57-63 | presenting a stored, unexpired, revoked token revokes every token of its owner and nothing else |
| `TokenSafety.ReuseIsDetectedIff` | src/modules/auth/token.service.ts:51-71 | whatever others do between its look-up and its check, a presentation goes on to the revoke-all exactly if the look-up saw the row revoked and the check finds it unexpired; so a retry looked up while the token was live never trips the detection |
| `TokenSafety.RetryAfterClaimTrips` | src/modules/auth/token.service.ts:57-71 | a retry at any time after the claim, whatever others do before its look-up and before its check, trips it exactly if the row is still stored at the look-up and unexpired at the check |
| `TokenSafety.LiveAfter` | src/modules/auth/token.service.ts:72-112 | the only ways a token can become live: a login, or the successor of a claimed rotation |
| `TokenSafety.BarrenStays` | src/modules/auth/token.service.ts:95-100 | a user with no live token and no rotation past its claim stays without one until a login |
| `TokenSafety.RunKeepsContained` | src/modules/auth/token.service.ts:60-63 | containment after a revoke-all is kept by every further run |
| `TokenSafety.ReuseContainment` | src/modules/auth/token.service.ts:60-63 | after the revoke-all of a reuse, any token of that user live at any later point descends from a later login or from a rotation that had already claimed |
| `TokenSafety.LockoutIsExact` | src/modules/auth/token.service.ts:95-100 | the revoke-all locks the user out until a new login, whatever follows, if and only if no rotation of that user is past its claim |
| `TokenSafety.RotationSurvives` | src/modules/auth/token.service.ts:60-84 | a rotation past its claim inserts a live successor after the revoke-all of its user, in whatever state the rest is |
| `TokenSafety.LockoutFails` | src/modules/auth/token.service.ts:60-84 | such a state is reached from the start: login, claim by one presentation, reuse detected by another, revoke-all, successor inserted |
| `TokenPurge.RotateIsRun` | src/modules/auth/token.service.ts:50-85 | the atomic form of `rotate` is the run of its steps without interference |
| `TokenPurge.ServeSimilar` | src/core/jobs/refresh-token-cleanup.job.ts:28-45 | one call answers alike with and without the purged rows, and leaves similar tables |
| `TokenPurge.RunSimilar` | src/core/jobs/refresh-token-cleanup.job.ts:28-45 | whole runs of regular calls answer alike with and without the purged rows |
| `TokenPurge.VacuumIsUnobservable` | src/core/jobs/refresh-token-cleanup.job.ts:33-36 | for calls taken as atomic: deleting expired rows, at any moments, never changes an answer of any later calls |
| `TokenPurge.PurgeIsUnobservable` | src/core/jobs/refresh-token-cleanup.job.ts:28-45 | for calls taken as atomic: the whole purge never changes an answer on runs that present no token revoked more than seven days before |
| `TokenPurge.PurgeObservableIff` | src/core/jobs/refresh-token-cleanup.job.ts:29-31 | a presentation right after the purge can be told apart by later calls if and only if the purge dropped an unexpired revoked row whose owner still had a usable token |
| `TokenPurge.PurgeForgets` | src/core/jobs/refresh-token-cleanup.job.ts:28-45 | with tokens valid for eight days or more, a sign-in, a sign-out, a second sign-in eight days later and the purge lead from an empty table to such a row, whose reuse goes unnoticed |
| `TokenCleaning.NextAlike` | src/core/jobs/refresh-token-cleanup.job.ts:28-45 | every step of any call in flight keeps a cleaned and an uncleaned world alike: same history, same calls, tables that differ in stale rows only |
| `TokenCleaning.CleaningIsUnnoticedIff` | src/core/jobs/refresh-token-cleanup.job.ts:28-45 | whatever calls are in flight, cleaning the table changes nothing of what any later steps mint and claim if and only if no rotation is about to claim a live token that expired after its check; where the purge is meant, the later steps look up no unexpired token revoked more than seven days before |
| `TokenCleaning.CleaningsAreUnnoticed` | src/core/jobs/refresh-token-cleanup.job.ts:28-45 | so do any number of deletions at any moments between the steps of any calls, if none of them meets such a claim |
| `TokenCleaning.LateClaimLoses` | src/modules/auth/token.service.ts:72-78 | such a claim wins without the deletion and loses with it |
| `TokenCleaning.PurgeRacesClaim` | src/modules/auth/token.service.ts:57-78 | such a state is reached from the start: sign-in, look-up, checks, the token expires, and the purge comes before the claim |
| `TokenServices.TokenService.RevokeIfLive` | src/modules/auth/token.service.ts:72-75 | the guarded write sets `revokedAt` to now and counts one exactly when the row is there and not revoked, and changes no other row |
| `TokenServices.TokenService.RevokeAllForUser` | src/modules/auth/token.service.ts:95-100 | every live token of the user is revoked, revoked ones keep their time, other users' rows are unchanged; the user holds no live token |
| `TokenServices.TokenService.Revoke` | src/modules/auth/token.service.ts:87-93 | logout: the presented token is not live afterwards and nothing else changes |
| `TokenServices.TokenService.CreateRefreshToken` | src/modules/auth/token.service.ts:102-112 | stores one unrevoked row that expires the configured number of days, of 86400000 ms each, from now; a token stored already changes nothing |
| `TokenServices.TokenService.Issue` | src/modules/auth/token.service.ts:29-45 | a login adds just one row, unrevoked, expiring the configured days from now, which starts a family |
| `TokenServices.TokenService.PurgeStale` | src/core/jobs/refresh-token-cleanup.job.ts:28-45 | keeps exactly the rows that have not expired and were not revoked more than 604800000 ms ago, unchanged, and returns how many are gone |
| `TokenServices.TokenService.ClaimAndIssue` | src/modules/auth/token.service.ts:72-84 | from the claim on, under interference: the run of the claim and, if it won, of the successor |
| `TokenServices.TokenService.CreateSuccessor` | src/modules/auth/token.service.ts:80-84 | the successor is inserted live, with the claimed token as its parent |
| `TokenServices.TokenService.Rotate` | src/modules/auth/token.service.ts:50-85 | one `rotate` call, whatever others do in its three pauses, is the run of its steps; success means a live successor whose parent is the presented token |
| `TokenServices.RotateUndisturbed` | src/modules/auth/token.service.ts:50-85 | a rotation left alone, by the columns of the stored row: a missing or expired one changes nothing, a revoked one revokes all of its owner's, that of an inactive owner changes nothing, any other is revoked now and followed by a successor with a full life |
| `TokenAnswers.MintedRow` | src/modules/auth/token.service.ts:102-112 | login and successor store the token for its user, unrevoked, expiring `ttlDays * 86400000` ms from now, and change no other row |
| `TokenAnswers.RowStays` | src/modules/auth/token.service.ts:102-112 | whose a stored token is, when it expires and when it was revoked never change in any run |
| `TokenAnswers.ChecksIff` | src/modules/auth/token.service.ts:51-66 | whatever others do between look-up and check, a presentation goes on to the claim exactly if the row was stored and unrevoked and its owner active at the look-up and the check comes no later than its expiry, to the revoke-all exactly if it was revoked, and ends otherwise |
| `TokenAnswers.ClaimIff` | src/modules/auth/token.service.ts:72-78 | the claim wins exactly on a stored, unrevoked row, which it revokes now |
| `TokenAnswers.AcceptedUntilExpiry` | src/modules/auth/token.service.ts:57-66 | a minted token that is left unrevoked and stored, whatever else goes on, passes the checks exactly until the configured days are over, while its owner is active |
| `TokenAnswers.LifeOfALogin` | src/modules/auth/token.service.ts:57-59 | a sign-in, some time, a presentation: it passes up to and with the last millisecond |
| `TokenAnswers.DeactivationStops` | src/modules/auth/token.service.ts:64-66 | a token looked up after its owner was deactivated is never claimed, until a reactivation |
| `TokenAnswers.ReactivationLets` | src/modules/auth/token.service.ts:64-66 | after a reactivation it is let through again |
| `AuditInvariant.NextKeepsInv` | src/modules/geo/geo-audit.worker.ts:59-188 | every step of creators, workers, reapers, purge and crashes keeps the invariant of the audit table, also when a rejected enqueue had queued its job |
| `AuditInvariant.RunKeepsInv` | src/modules/geo/geo-audit.worker.ts:59-188 | the invariant holds in every reachable state |
| `AuditSafety.ClaimedAtMostOnce` | src/modules/geo/geo-audit.worker.ts:63-69 | under redelivery and any number of workers an audit is claimed at most once |
| `AuditSafety.TerminalRowsAreWhole` | src/modules/geo/geo-audit.worker.ts:76-110 | COMPLETED implies findings and no error, a row in flight has neither, and FAILED implies no findings unless the audit's own rejected enqueue had queued the job |
| `AuditSafety.AtMostOneNotification` | src/modules/geo/geo-audit.worker.ts:91-109 | at most one notification is ever raised per audit, to its requester, with the terminal status it reached first; the row disagrees only if a completed audit was overwritten after its own rejected enqueue had queued the job |
| `AuditSafety.TerminalIsAbsorbing` | src/modules/geo/geo-audit.worker.ts:76-79 | a terminal status stays until the row is deleted, whatever follows, if and only if it is not COMPLETED with a creator about to write FAILED over it |
| `AuditSafety.DoomedIsLost` | src/modules/geo/audits.service.ts:66-79 | that takes an audit whose own rejected enqueue had queued the job |
| `AuditSafety.DeletionIsFinal` | src/modules/geo/geo-audit.worker.ts:182-188 | a purged audit never comes back |
| `AuditSafety.WorkerCompletes` | src/modules/geo/geo-audit.worker.ts:59-93 | a delivery of a queued job on a pending audit, left alone, completes it with what the runner returned, no error and both times at the write, and changes no other row |
| `AuditAnswers.WorkerFails` | src/modules/geo/geo-audit.worker.ts:94-106 | if the runner throws instead, it fails the audit with what was thrown |
| `AuditAnswers.CompletedHoldsAnAnswer` | src/modules/geo/geo-audit.worker.ts:80-90 | in every run a COMPLETED audit holds findings that the runner returned to a worker of that audit |
| `AuditAnswers.FailedSaysWhy` | src/modules/geo/geo-audit.worker.ts:94-106 | in every run a FAILED audit has an error: `Audit timed out`, `Could not queue the audit`, or what was thrown in a worker of that audit |
| `AuditAnswers.TellingArrives` | src/modules/geo/geo-audit.worker.ts:91-109 | what a worker or the reaper announces arrives once, for that audit and requester, unless the database drops it |
| `AuditAnswers.CreatedIsPending` | src/modules/geo/audits.service.ts:59-69 | a creation past the count leaves one more audit, pending, of just that request and time, and its job queued |
| `AuditSafety.UnguardedWriteReliesOnTheQueue` | src/modules/geo/audits.service.ts:72-79 | some run from the rejection on lets the unguarded FAILED write overwrite a completed audit if and only if that enqueue had queued the job and the audit was still PENDING; other audits' enqueues do not matter |
| `AuditSafety.OverwriteIsReached` | src/modules/geo/audits.service.ts:40-79 | the overwriting is reached from the start: creation, a rejected enqueue that queued the job, a worker that completes the audit |
| `AuditDeadline.SweepLeavesNothingStale` | src/modules/geo/geo-audit.worker.ts:143-179 | when a sweep ends, under any interference during its loop, no row in flight was last updated before its cutoff |
| `AuditDeadline.RunKeepsSweeps` | src/modules/geo/geo-audit.worker.ts:143-179 | what every run keeps of the sweeps under way and done |
| `AuditDeadline.ReaperDeadline` | src/modules/geo/geo-audit.worker.ts:23-28 | if every stretch of a period P holds a whole sweep, an audit is terminal or gone within 2(15 min + P) of its creation |
| `AuditCap.BoundedOvershoot` | src/modules/geo/audits.service.ts:45-61 | with at most K creators between count and create, audits in flight plus such creators never exceed 4 + K |
| `AuditCap.CapIsExactWithoutOverlap` | src/modules/geo/audits.service.ts:19-21 | without overlapping creators the cap of five holds in every state |
| `AuditCap.OvershootIsAttained` | src/modules/geo/audits.service.ts:45-48 | for every K there is a run with K overlapping creators and 4 + K audits in flight |
| `AuditServices.GeoAuditWorker.ClaimPending` | src/modules/geo/geo-audit.worker.ts:63-69 | the guarded claim: counts a row exactly when it was PENDING, and only then moves it to PROCESSING |
| `AuditServices.GeoAuditWorker.CompleteIfProcessing` | src/modules/geo/geo-audit.worker.ts:81-93 | the guarded completion: counts one exactly for a PROCESSING row and then stores COMPLETED, the given findings, no error and both times, and nothing else |
| `AuditServices.GeoAuditWorker.CompleteAndThrow` | src/modules/geo/geo-audit.worker.ts:82-98 | the completion write throws, applied or not, and the call goes on in the catch block |
| `AuditServices.GeoAuditWorker.FailIfProcessing` | src/modules/geo/geo-audit.worker.ts:99-109 | the guarded failure write of the catch block: counts one exactly for a PROCESSING row and then stores FAILED, the given message and both times, and nothing else |
| `AuditServices.GeoAuditWorker.NotifyAudit` | src/modules/geo/geo-audit.worker.ts:114-139 | after the pause the inbox gains just this notification, or nothing when it is dropped |
| `AuditServices.GeoAuditWorker.Write` | src/modules/geo/geo-audit.worker.ts:81-106 | the runner's answer and the one write that follows it are two steps of the protocol; a row counted is the caller's to announce, with the status written |
| `AuditServices.GeoAuditWorker.WriteTwice` | src/modules/geo/geo-audit.worker.ts:81-106 | a completion that throws is followed, others in between, by the failure write; only a row that was still PROCESSING then is announced, as FAILED |
| `AuditServices.GeoAuditWorker.Finish` | src/modules/geo/geo-audit.worker.ts:80-110 | from the runner's answer on, under interference: the run of the guarded completion, or of the failure write after a throw by the runner or by the completion itself, and of the notification if the last write flipped the row |
| `AuditServices.GeoAuditWorker.Handle` | src/modules/geo/geo-audit.worker.ts:59-112 | one delivery of a job, whatever others do in its pauses, is the run of its steps, for every way the runner and the completion write come out |
| `AuditServices.HandleUndisturbed` | src/modules/geo/geo-audit.worker.ts:59-112 | a delivery left alone: a pending audit ends as the runner and the completion write come out, with findings or message, and is announced accordingly; any other audit is not touched |
| `AuditServices.GeoAuditWorker.FailIfStale` | src/modules/geo/geo-audit.worker.ts:159-170 | the guarded transition of one candidate, re-checked at that instant, with its status, message and time |
| `AuditServices.GeoAuditWorker.FindStale` | src/modules/geo/geo-audit.worker.ts:144-155 | the candidates are exactly the rows in flight last updated more than 900000 ms ago |
| `AuditServices.GeoAuditWorker.NotifyReaped` | src/modules/geo/geo-audit.worker.ts:172-176 | the notification of a reaped row, after which the loop goes on whether or not it was stored |
| `AuditServices.GeoAuditWorker.ReapCandidate` | src/modules/geo/geo-audit.worker.ts:158-177 | one turn of the loop under interference takes the candidate off the list; left alone it fails the row exactly if stale |
| `AuditServices.GeoAuditWorker.EndSweep` | src/modules/geo/geo-audit.worker.ts:143-179 | a sweep that ends leaves no row in flight last updated before its cutoff |
| `AuditServices.GeoAuditWorker.ReapStale` | src/modules/geo/geo-audit.worker.ts:143-179 | the sweep's loop: under interference nothing stale remains in flight; left alone it fails exactly the stale rows and counts them |
| `AuditServices.GeoAuditWorker.PurgeOld` | src/modules/geo/geo-audit.worker.ts:182-188 | keeps exactly the rows created within the last 7776000000 ms, unchanged, and returns how many are gone |
| `AuditServices.Database.Notify` | src/modules/notifications/notifications.service.ts:29-40 | a notification is appended or, when the database refuses, nothing changes |
| `AuditServices.SiteAuditsService.Enqueue` | src/modules/geo/audits.service.ts:66-80 | the enqueue and its compensation, for a job accepted, rejected, or rejected though queued: success leaves the job queued, failure leaves no PENDING orphan |
| `AuditServices.SiteAuditsService.Compensate` | src/modules/geo/audits.service.ts:66-80 | a rejected enqueue, whether or not it queued the job, and its compensation, others in between, leave the row FAILED or gone |
| `AuditServices.SiteAuditsService.GiveUpUnqueued` | src/modules/geo/audits.service.ts:72-79 | the compensating write fails the row whatever its status and ends the call; it does not bring a deleted row back |
| `AuditServices.SiteAuditsService.Insert` | src/modules/geo/audits.service.ts:59-61 | the insert step: a PENDING row with both times set to now |
| `AuditServices.SiteAuditsService.Create` | src/modules/geo/audits.service.ts:40-81 | one creation under interference is the run of count, create and enqueue; refused exactly when the count was at the cap |
| `AuditServices.CreateUndisturbed` | src/modules/geo/audits.service.ts:40-81 | a creation left alone: with five or more in flight nothing changes, else one more audit, pending and queued or failed with its message |
| `TenantScope.ScopeArgs` | src/core/prisma/tenant-scope.extension.ts:49-84 | refused, as a mismatch, exactly if a payload that its operation checks names anything but the tenant; otherwise the `where` or the payload carries the tenant and every other entry is left alone, for every operation |
| `TenantIsolation.EvalOnSlice` | src/core/prisma/tenant-scope.extension.ts:22-41 | arguments local to a tenant evaluate on the full table as on the tenant's slice and leave the rest untouched, for every classified operation |
| `TenantIsolation.CommutingDiagram` | src/core/prisma/tenant-scope.extension.ts:49-84 | scoped arguments on the full table give the outcome, and have the effect, of the original arguments with the tenant defaulted on the tenant's slice; rows of others are untouched |
| `TenantIsolation.ForeignFilterIsOverridden` | src/core/prisma/tenant-scope.extension.ts:58-59 | a filter that names another tenant is overridden and still yields only the caller's rows |
| `TenantIsolation.DiagramIff` | src/core/prisma/tenant-scope.extension.ts:55-79 | for every scopable operation and any cursor, scoped arguments on the full table and the original ones on the slice come out alike exactly: always for creates; where the filter admits the tenant, unless a read starts at another tenant's row and something is left from there on; where it does not, when nothing of the tenant is reached (for an upsert also if both ways violate a unique index) |
| `TenantIsolation.ForeignFilterWitness` | src/core/prisma/tenant-scope.extension.ts:58-59 | a filter naming another tenant that reaches the caller's row: the diagram fails |
| `TenantIsolation.SliceDecidesIff` | src/core/prisma/tenant-scope.extension.ts:55-59 | for every scopable operation the scoped arguments come out on the full table as on the slice if and only if the operation is no read, or the cursor names no row of another tenant, or nothing is left from the cursor row on |
| `TenantIsolation.CursorConditionIsNeeded` | src/core/prisma/tenant-scope.extension.ts:55-59 | witness: a page of one's own rows from another tenant's cursor row on, which the slice alone would leave empty |
| `TenantIsolation.Noninterference` | src/core/prisma/tenant-scope.extension.ts:86-116 | deleting all other tenants' calls from any interleaving changes no row the tenant owns, whatever cursors anybody uses, and nothing the tenant sees, as long as its own cursors name no row of another tenant |
| `TenantIsolation.PerformOnSlice` | src/core/prisma/tenant-scope.extension.ts:86-116 | one call, whatever its cursor, does to its tenant's slice what it would do to the slice alone, and nothing to the rest |
| `TenantIsolation.InterferenceWitness` | src/core/prisma/tenant-scope.extension.ts:55-59 | witness: a page from another tenant's row on changes when that tenant deletes the row |
| `TenantIsolation.FailsClosed` | src/core/prisma/tenant-scope.extension.ts:95-110 | refused for want of a tenant exactly when the context has none, and as bypassing exactly for the unique look-ups; a refusal changes nothing |
| `TenantIsolation.DispatchRuns` | src/core/prisma/tenant-scope.extension.ts:90-116 | behind the refusals a call runs with the scoped arguments |
| `TenantIsolation.OtherModelsPass` | src/core/prisma/tenant-scope.extension.ts:95-98 | models without a tenant pass through untouched |
| `Pagination.SortStaysAllowed` | src/core/common/pagination.ts:51-75 | callers sort by an allowed column in the direction their prefix gives, or by the default; the id comes last, newest first, and no column twice |
| `Pagination.SortIsStrictTotal` | src/core/common/pagination.ts:51-75 | for every sort string the order is irreflexive, transitive, and total on rows with distinct ids |
| `Pagination.SortedOk` | src/core/common/pagination.ts:72-74 | sorting a table gives the same rows in strictly ascending order |
| `Pagination.FetchedIsDispatched` | src/modules/files/files.service.ts:54-70 | the rows a list fetches are what the tenant-scoped client answers |
| `Pagination.PageAt` | src/modules/files/files.service.ts:62-77 | the page for a cursor is the slice of the full sorted list right after the cursor's row, with the next cursor set exactly if more follows |
| `PaginationWalk.FinishedWalkIsWhole` | src/modules/files/files.service.ts:54-77 | on a fixed table the concatenated pages are the whole sorted, filtered list, in exactly max(1, ⌈n/limit⌉) pages |
| `PaginationWalk.WalkFinishes` | src/core/common/pagination.ts:13-15 | the walk reaches a page with a null cursor |
| `PaginationWalk.PageFacts` | src/modules/geo/audits.service.ts:89-112 | a page holds matching rows beyond the cursor's row in order, and passes over only rows behind its end |
| `PaginationWalk.PagesAscend` | src/core/common/pagination.ts:13-15 | rows of earlier pages sort before rows of later ones, whatever is inserted, changed or deleted in between, the cursors' rows included, as long as sort keys do not change |
| `PaginationWalk.NoRepeats` | src/core/common/pagination.ts:13-15 | so no id is ever returned twice |
| `PaginationWalk.NoneMissed` | src/core/common/pagination.ts:13-15 | a finished walk whose cursors' rows still match when they are used misses no row that matched throughout |
| `PaginationWalk.ReturnedIff` | src/core/common/pagination.ts:13-15 | a finished walk over a changing table returns a row that matched throughout if and only if no request left it out: its cursor's row was gone while the row lay ahead, or no longer matched and the row was the first behind it |
| `PaginationWalk.PageBehind` | src/modules/files/files.service.ts:62-77 | a page whose cursor names a row that is still there is in order and lies strictly behind that row, whether or not it still matches |
| `PaginationWalk.RepeatWitness` | src/modules/geo/audits.service.ts:89-112 | witness: audits sorted by status, which changes, and one of them returned twice |
| `PaginationWalk.CursorConditionIsExact` | src/modules/files/files.service.ts:68-69 | a request fetches exactly the rows after its cursor if and only if the cursor row still matches or nothing follows it |
| `PaginationWalk.SkippedWitness` | src/modules/files/files.service.ts:68-69 | witness: a cursor row that no longer matches makes `skip` drop the one row that should follow |
| `PaginationWalk.MissingCursorEndsTheWalk` | src/modules/files/files.service.ts:68-76 | if the cursor row is gone the page is empty and the walk ends |
| `PaginationWalk.NotificationsAreOwn` | src/modules/notifications/notifications.service.ts:42-84 | every page of a user's notifications, on any table and for any cursor, holds rows of that user and tenant only: unread ones if asked, with the searched text in title or body |
| `PaginationWalk.NotificationWalksAreOwn` | src/modules/notifications/notifications.service.ts:42-84 | so does every walk, finished or not, over tables that change between its requests |
| `PaginationWalk.PageMatches` | src/modules/files/files.service.ts:54-77 | every page of every list, on any table and for any cursor, holds only matching rows of the tenant that are in the table |
| `PaginationWalk.SearchWalk` | src/core/common/pagination.ts:51-75 | a finished walk over a searched list returns exactly the tenant's rows whose column contains the text, ascending, each once, by an allowed column or newest first |
| `PaginationWalk.FilesWalk` | src/modules/files/files.service.ts:54-77 | a finished walk over the files returns exactly the tenant's files whose name contains the searched text, by one of the three columns or newest first |
| `PaginationWalk.AuditsWalk` | src/modules/geo/audits.service.ts:89-112 | the same for the audits by their URL |
| `PaginationWalk.NotificationMatches` | src/modules/notifications/notifications.service.ts:45-69 | the query asks exactly for the tenant's notifications of this user, unread if asked, with the searched text in title or body |
| `PaginationWalk.NotificationsWalk` | src/modules/notifications/notifications.service.ts:45-84 | a finished walk over a user's notifications returns exactly those, each once, by creation time |
| `PaginationOrder.ByDefault` | src/modules/files/files.service.ts:65-68 | without a `sort`, on every page of the three lists and for any cursor, a later row has no greater `createdAt`, and on the same instant a smaller id |
| `PaginationOrder.FilesInOrder` | src/modules/files/files.service.ts:62-70 | `sort=f` shows the values of column f non-decreasing and `sort=-f` non-increasing, numbers by size and texts lexicographically, missing ones as the greatest, ties by descending id; f is `createdAt`, `filename` or `size` |
| `PaginationOrder.AuditsInOrder` | src/modules/geo/audits.service.ts:93-106 | the same for audits by `createdAt`, `url` and `status` |
| `PaginationOrder.NotificationsInOrder` | src/modules/notifications/notifications.service.ts:72-77 | the same for notifications by `createdAt` |
| `PaginationOrder.WalkInOrder` | src/modules/files/files.service.ts:54-77 | the order goes on from page to page of a finished walk |
| `PaginationOrder.DefaultSort` | src/core/common/pagination.ts:51-75 | an absent or empty `sort`, and one that is no allowed column with or without a dash, sorts by the default |
| `PaginationOrder.TextLessIff` | src/modules/files/files.service.ts:65-68 | the order of texts is by the first differing character, a proper prefix first |
| `Strings.ContainsIff` | src/modules/files/files.service.ts:57-59 | a search finds a text exactly if a stretch of it differs from the searched one in the case of letters only |
| `Lockout.AuthService.RegisterFailedLogin` | src/modules/auth/auth.service.ts:121-149 | counts one failure, or at the threshold resets the counter and locks for `lockMinutes * 60000` ms |
| `Lockout.AuthService.Login` | src/modules/auth/auth.service.ts:66-118 | locked exactly while a lock is in force, wrong exactly for a wrong password otherwise, accepted exactly with the right one in an active workspace; a success clears counter and lock, a wrong password is counted, and anything else changes nothing |
| `Lockout.FailureSpends` | src/modules/auth/auth.service.ts:126-139 | each counted failure uses up one unit of the budget left in a window |
| `Lockout.RateBound` | src/modules/auth/auth.service.ts:71-76 | without a successful login at most max · (⌊D/L⌋ + 1) wrong passwords are checked in any span D |
| `Lockout.NothingCheckedWhileLocked` | src/modules/auth/auth.service.ts:71-76 | while the lock is in force no attempt reaches the password check or the counter |
| `Lockout.RateBoundIsTight` | src/modules/auth/auth.service.ts:120-140 | for every whole number of lock times there is a run that reaches the bound |
| `LockoutOverlap.SerialIsRun` | src/modules/auth/auth.service.ts:121-140 | a failed or refused login of the serial model is the run of lock check, increment and lock write |
| `LockoutOverlap.SuccessIsClear` | src/modules/auth/auth.service.ts:103-109 | a successful one ends in the clearing of counter and lock |
| `LockoutOverlap.StepSpends` | src/modules/auth/auth.service.ts:71-140 | every step of any login, overlapping others, keeps the budget of a window: what is admitted is paid for, and a lock being set never adds to it; only a dropped call gives one back |
| `LockoutOverlap.OverlapBound` | src/modules/auth/auth.service.ts:71-140 | with at most k logins between check and last write, at most (max - 1 + k) · (⌊D/L⌋ + 1) wrong passwords pass the lock check in any span D without a success, plus the calls dropped in it |
| `LockoutOverlap.OverlapBoundIsTight` | src/modules/auth/auth.service.ts:120-140 | for every k, every start without failures or lock, and every whole number of lock times, a run reaches that bound |
| `Digits.ValueOfNumeral` | src/modules/geo/url-guard.ts:43 | parsing a printed numeral gives the number back, in base 10 and base 16 |
| `Digits.ParseHex` | src/modules/geo/url-guard.ts:53 | `parseInt(g, 16)` of hexadecimal digits is their value |
| `Digits.JoinBytes` | src/modules/geo/url-guard.ts:43 | shifting one byte and or-ing the other in is 256a + b |
| `Digits.SplitHextet` | src/modules/geo/url-guard.ts:63 | `>> 8 & 0xff` and `& 0xff` give the two bytes back |
| `Bits.AndShiftedMask` | src/modules/geo/url-guard.ts:72-73 | a mask of high bits tests only the bits above its zeros |
| `Ipv6Spelling.FoldedWritten` | src/modules/geo/url-guard.ts:36-44 | folding turns a dotted tail into the two hextets of its bytes and leaves everything else alone |
| `Ipv6Spelling.HalvesOf` | src/modules/geo/url-guard.ts:45-48 | splitting at `::` recovers the groups before and after the compressed run |
| `Ipv6Spelling.RoundTrip` | src/modules/geo/url-guard.ts:33-55 | every legal spelling (section 2.2 of RFC 4291: compressed run, either case, leading zeros, dotted tail, zone) expands to exactly the eight hextets it denotes |
| `Ipv6Spelling.AnyRunMayBeCompressed` | src/modules/geo/url-guard.ts:45-51 | every address, with any one run of its zeros compressed, has a legal spelling that expands back to it |
| `Ipv6Spelling.VerdictIsOfTheAddress` | src/modules/geo/url-guard.ts:57-75 | the verdict on a legal spelling is the verdict on its hextets |
| `Ipv6Spelling.SpellingDoesNotMatter` | src/modules/geo/url-guard.ts:30-32 | two spellings of one address get the same verdict |
| `AddressRanges.ByteTestsAreBlocks` | src/modules/geo/url-guard.ts:14-27 | for all four bytes the tests hold if and only if the 32-bit address is in one of the eleven CIDR blocks |
| `AddressRanges.VerdictV4` | src/modules/geo/url-guard.ts:9-28 | blocked are exactly the texts that are no four decimal bytes and the addresses in a block |
| `AddressRanges.DottedRoundTrip` | src/modules/geo/url-guard.ts:61-64 | printing four bytes and classifying the text gives the verdict on the bytes |
| `AddressRanges.EmbeddedVerdict` | src/modules/geo/url-guard.ts:61-64 | the shift, mask, print and parse chain comes out at the byte tests |
| `AddressRanges.EmbeddingsAgree` | src/modules/geo/url-guard.ts:66-70 | every spelling of the mapped, compatible or 64:ff9b:: embedding of an IPv4 address gets the verdict of that address |
| `AddressRanges.VerdictV6` | src/modules/geo/url-guard.ts:57-75 | the hextet and mask tests are membership of the 128-bit address in the prefixes they stand for |
| `AddressRanges.Nat64TestIsWider` | src/modules/geo/url-guard.ts:66-70 | the verdict differs from the documented /96 test exactly on addresses under 64:ff9b::/32 outside the /96 that end in a blocked IPv4 address |
| `AddressRanges.WiderWitness` | src/modules/geo/url-guard.ts:66-70 | witness: 64:ff9b::1:a00:0, blocked though outside the /96 |
| `AddressVerdicts.DottedIff` | src/modules/geo/url-guard.ts:9-28 | an IPv4 address in dotted decimals is blocked if and only if it is in one of eleven ranges of 32-bit numbers |
| `AddressVerdicts.SpellingIff` | src/modules/geo/url-guard.ts:57-75 | an IPv6 address in any legal spelling is blocked if and only if its last 32 bits are in those ranges, below an embedding prefix, or else it begins with fc00 to fdff or fe80 to febf |
| `AddressVerdicts.OthersAreBlocked` | src/modules/geo/url-guard.ts:77-83 | what is no IP address is blocked |
| `AddressVerdicts.TwoDoubles` | src/modules/geo/url-guard.ts:45-46 | two `::` make no address |
| `AddressVerdicts.CountDecides` | src/modules/geo/url-guard.ts:47-52 | hexadecimal groups expand if and only if there are eight, or at most eight around a `::` |
| `AddressVerdicts.ExpansionIsAddress` | src/modules/geo/url-guard.ts:52-54 | whatever expands, expands to eight hextets of sixteen bits |
| `Robots.ParseGroups` | src/modules/geo/checks/crawler-access.check.ts:13-50 | the loop over the lines computes what the state machine computes |
| `Robots.PushRule` | src/modules/geo/checks/crawler-access.check.ts:42-46 | the inner loop adds the rule to every agent of the group, in order |
| `RobotsReading.PushAllAdds` | src/modules/geo/checks/crawler-access.check.ts:42-46 | a rule reaches each agent as often as the group names it, and no other agent |
| `RobotsReading.MachineReads` | src/modules/geo/checks/crawler-access.check.ts:24-48 | over any grouping of the records the one-pass machine gives each agent the in-order rules of all groups naming it, and knows exactly the agents of groups with a rule |
| `RobotsReading.GroupsOfPrints` | src/modules/geo/checks/crawler-access.check.ts:10-12 | every list of records has such a grouping |
| `RobotsReading.ReaderReads` | src/modules/geo/checks/crawler-access.check.ts:13-50 | for every file the reader yields per agent the rules of its groups, leading rules under `*` (section 2.2.1 of RFC 9309) |
| `RobotsText.NoiseIsIgnored` | src/modules/geo/checks/crawler-access.check.ts:27-31 | a comment, blank or unknown line between two others never changes the result (section 2.2.4 of RFC 9309) |
| `RobotsText.NoiseAtTheEnds` | src/modules/geo/checks/crawler-access.check.ts:27-31 | nor at the start or the end of the file |
| `RobotsText.CommentIsIgnored` | src/modules/geo/checks/crawler-access.check.ts:28 | a trailing comment changes no record, and a line of nothing else is none |
| `RobotsText.BlankIsIgnored` | src/modules/geo/checks/crawler-access.check.ts:28-29 | white space alone is no record |
| `RobotsText.ParseOfBoth` | src/modules/geo/checks/crawler-access.check.ts:35-40 | reading one file after another merges the two readings when the first ends in a rule and the second begins with an agent |
| `RobotsText.RecordsOfText` | src/modules/geo/checks/crawler-access.check.ts:27-33 | reading undoes printing, record by record |
| `RobotsText.MapRoundTrip` | src/modules/geo/checks/crawler-access.check.ts:13-50 | reading a printed map of groups returns the map |
| `RobotsText.VerdictByGroups` | src/modules/geo/checks/crawler-access.check.ts:52-60 | a bot is blocked if and only if some group for it (or for `*`) disallows the root and none allows it, whatever the order of groups |
| `RobotsLines.LineSays` | src/modules/geo/checks/crawler-access.check.ts:27-48 | white space around key and value and a comment behind them do not matter, the three keys count in any case of their letters, the value stands as written, and every other key says nothing |
| `RobotsLines.NoColon` | src/modules/geo/checks/crawler-access.check.ts:28-31 | a line without a colon says nothing |
| `RobotsLines.VerdictAsWritten` | src/modules/geo/checks/crawler-access.check.ts:41-60 | on the groups as the file writes them, names compared without regard to case: a bot is blocked if and only if some group for it, or for `*` if none for it has a rule, disallows `/` or `/*` and none allows it |
| `RobotsLines.ShutOutByName` | src/modules/geo/checks/crawler-access.check.ts:41-60 | a bot that is shut out by name is blocked, in whatever case the file writes it |
| `RobotsLines.CapitalsWitness` | src/modules/geo/checks/crawler-access.check.ts:41-60 | witness: `User-agent: GPTBot`, `Disallow: /` |
| `RobotsText.RulelessAgentsFallBack` | src/modules/geo/checks/crawler-access.check.ts:55 | the verdict differs from section 2.2.1 of RFC 9309 exactly for agents named only in groups without rules, when `*` is blocked |
| `RobotsText.FallBackWitness` | src/modules/geo/checks/crawler-access.check.ts:55 | witness: GPTBot with an empty group beside `*` shut out is reported blocked |
| `PlainText.CharacterStep` | src/modules/geo/text.ts:8-11 | a character of one or two units is cleaned as its units are |
| `PlainText.PlainText` | src/modules/geo/text.ts:5-13 | the loop over code points and the passes around it compute the normalised text |
| `PlainText.StripReplacesTags` | src/modules/geo/text.ts:6 | each tag becomes one space and the text around the tags stays |
| `PlainText.StripLeavesNoTag` | src/modules/geo/text.ts:6 | no `<` is left with a later `>` |
| `PlainText.WordsAreKept` | src/modules/geo/text.ts:7-12 | before the cut the result is the words of the untagged text joined by single spaces: everything printable is kept, in order |
| `PlainText.InkIsKept` | src/modules/geo/text.ts:6-12 | every unit outside the tags that is neither a control character nor white space is kept, in order, up to the cut |
| `Strings.SpaceCodes` | src/modules/geo/text.ts:12 | `\s` and `trim` take for white space just the 25 code units of ECMAScript |
| `PlainText.ResultIsNormal` | src/modules/geo/text.ts:5-13 | for every input and max: at most max units, none a control character, no tag, no white space but single spaces, none in front, unit by unit |
| `PlainText.Again` | src/modules/geo/text.ts:12 | a second pass only removes one space at the end, which is there exactly when the cut fell behind one |
| `PlainText.AgainWitness` | src/modules/geo/text.ts:12 | witness: `a b` cut at two units keeps its space, and a second pass drops it |
| `PlainText.ThirdTime` | src/modules/geo/text.ts:12 | after two passes nothing changes any more |
| `PlainText.OnlyTheCutBreaksPairs` | src/modules/geo/text.ts:8-12 | well-formed UTF-16 stays so unless, and only unless, the cut falls inside a surrogate pair |
| `PlainText.CutPairWitness` | src/modules/geo/text.ts:12 | witness: one character of two units cut at one unit is no longer well-formed |
| `FileProtocol.NextKeepsInv` | src/modules/files/files.service.ts:37-100 | every step of uploads, removals and crashes keeps rows, objects and holders in agreement |
| `FileProtocol.RunKeepsInv` | src/modules/files/files.service.ts:37-100 | so does every run |
| `FileSafety.NoDanglingRow` | src/modules/files/files.service.ts:93-100 | at every point of every interleaving each row's key has a stored object, under the row's tenant, and no two rows share a key |
| `FileSafety.ObjectsAreAccountedFor` | src/modules/files/files.service.ts:37-52 | every object belongs to exactly one of: a row, a call in flight, a dropped call; and nothing else is stored |
| `FileSafety.HoldersAreUnique` | src/modules/files/files.service.ts:93-100 | two removals of one file never both get to delete its object |
| `FileSafety.NothingLeftOver` | src/modules/files/files.service.ts:93-100 | without crashes, once nothing is in flight, the objects are exactly those of the rows |
| `FileSafety.LostStays` | src/modules/files/files.service.ts:95-97 | a left-over object stays for good and never comes to belong to a row |
| `FileSafety.ObjectsNeverChange` | src/modules/files/files.service.ts:42-44 | an object is never overwritten |
| `FileSafety.MissingContentMeansRemoved` | src/modules/files/files.service.ts:79-91 | a download that read a row but finds no object was overtaken by a removal, and the row is gone for good |
| `FilesServices.FilesService.Upload` | src/modules/files/files.service.ts:37-52 | one upload under interference is the run of its steps, for every way the put and the insert come out; success leaves the row with every column as given and its content, a refused put nothing, a throw before the insert is applied an unreferenced object, and an insert that throws though applied the row with its object |
| `FilesServices.FilesService.DeleteRecord` | src/modules/files/files.service.ts:98 | deleting the row fails exactly when it is gone or another tenant's |
| `FilesServices.FilesService.DeleteFrom` | src/modules/files/files.service.ts:99 | the object of a deleted row is removed, or left unreferenced when the store refuses; a throw after the delete was applied leaves none |
| `FilesServices.FilesService.Remove` | src/modules/files/files.service.ts:93-100 | one removal under interference is the run of its steps, for every way the two deletes come out; not found exactly for rows missing or of another tenant, success leaves neither row nor object, and a row delete that was applied is never undone |
| `FilesServices.FilesService.RemoveFound` | src/modules/files/files.service.ts:98-99 | from the row that was read on: if the row is deleted by this call, its object is gone exactly when the second delete was reached and applied, and left unreferenced otherwise |
| `FilesServices.RemoveUndisturbed` | src/modules/files/files.service.ts:93-100 | a removal left alone, by rows and objects, for every way its deletes come out |

## Left out

- Two awaits are never split further: a clock reading and the write it goes into are one step, and `register` and
  Google sign-in are the login step of the token protocol.
- `TokenStore` keys rows by token, which stands for `tokenHash` and for the row id; SHA-256 is taken to be injective on
  the tokens used and fresh tokens never to repeat. JWT signing is at most a crash between claim and successor.
- The read of the user row and the clock reading of the lock check are one step, and in the overlapping model of
  logins so are the clock reading of the lock and its write; a successful login appears there only by its clearing of
  counter and lock. Password verification is an oracle, and timing equalisation is not modelled.
- `AuditRunner.run` is an oracle that returns findings or throws; the queue is a set of jobs, each delivered any number
  of times, and priorities, retries and expiry of pg-boss are not part of this model.
- Deadlines assume that sweeps do happen: fairness of the scheduler is a hypothesis.
- The query language of the tenant model is what the code uses: conjunction, disjunction, negation, equality,
  membership, upper bounds and case-insensitive `contains`; nested writes, includes and `cursor` by other columns are
  left out. Aggregates and group-by stand for the rows they range over. A write of several rows is one step.
- Ids and keys are taken to be unique across tenants for noninterference, which an ownership map expresses; a clash of
  unique keys would otherwise show.
- Text columns are ordered by code point and nulls last; a database collation may order differently.
- `markRead`, `markAllRead` and `unreadCount` are single guarded writes and reads and would only add easy members.
- `isIP` is a parameter of the address check, and DNS resolution, redirects and sockets are not part of this model.
  `docs/security.md` still lists DNS rebinding as open, while the code pins the address it has validated.
- AddressRanges.VerdictV4: takes hexadecimal, signed and exponent literals, which `Number` would read, for no number;
  the texts `isIP` accepts as IPv4, the only ones that get here, hold none.
- UrlGuard.NumberOf: reads decimal digits and the empty string, as what reaches `Number` after `isIP` consists of those;
  signs, exponents and hexadecimal literals count as no number, on which the address is blocked.
- Strings.Lower: folds ASCII letters only.
- PlainText.PlainText: takes a non-negative `max`; a negative one, which no caller passes, would cut from the end.
- RobotsText.ParseOfBoth: gives no converse; with an open group at the seam the readings may still merge by accident of
  the agents' names.
- HTTP wiring, DTO validation, logging and the finding texts are thin glue without state of their own; the other
  checks of a page rest on an HTML library that is not part of this model.
