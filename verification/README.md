# Verified core

A Dafny model of the parts of this repository where a mistake would be hard to see in review:
the realtime locks and leases and what they promise about membership, refresh-token families,
board ranks, compact tokens, the renewal of Vault credentials, and a handful of smaller
algorithms. Objects that the program updates in place are classes whose methods are proved equal
to functions on values; protocols are transition systems whose steps are what runs between two
awaits or in one transaction; the theorems are about every run.

| files | subject |
|---|---|
| `ProjectLock`, `ProjectCoordinator` | the FIFO reader-writer lock of one project, against a reference lock |
| `KeyLock`, `KeyedCoordinator` | the promise-chain mutex of one resource key |
| `Coordinator`, `CoordinatorProperties`, `CallOrder`, `ProjectResourceCoordinator` | the two-level lock with lazily deleted entries |
| `Leases`, `LeaseHistory`, `FieldLockManager` | the table of field leases and its history |
| `Realtime`, `RealtimeSafety`, `RealtimeProperties`, `MembershipRules`, `FieldOutcomes`, `StrandedLease` | locks, leases, chat and membership changes running together |
| `RefreshStore`, `RefreshChain`, `RefreshRuns`, `RefreshProperties`, `RefreshOutcomes`, `RefreshTickets`, `Store` | refresh families, replay, WebSocket tickets |
| `Board`, `BoardPlaces`, `BoardRuns`, `BoardSerial`, `BoardActs`, `TaskBoard` | ranks of the task board as lists, and the order interleaved requests amount to |
| `Base64Url`, `Base64Texts`, `Jwt`, `JwtProperties`, `JwtOutcomes` | base64url (RFC 4648 section 5), compact JWTs (RFC 7515 section 7.1, RFC 7519 section 4.1) |
| `VaultRenewal` | the credential renewal loop |
| `KeyIds`, `KeyVersions`, `KeyCache`, `PublicKeyCache`, `KeyReads`, `KeyReadsProperties` | the public-key cache, and its callers running together |
| `Like`, `ChatPaging`, `Progress`, `ProgressCounts`, `RateLimiter`, `FixedWindowLimiter` | search filter, chat history, checklist progress, rate limit |

## Assumptions

- Between two awaits JavaScript code is atomic; so is a database transaction, and so is a call of
  the refresh store on its locked family. The Go and database clocks are one clock that does not go back.
- Random values (lease tokens, task ids) are not repeated. SHA-256 has no collisions among the
  tokens in use, and decrypting an encrypted successor gives it back.
- Operations under the two-level lock finish and do not start another one inside.
- A socket belongs to one user, a well-formed resource key to one project, for good.
- In `CallOrder` continuations run in the order in which their promises were resolved.
- The JSON library reads back the headers and payloads that a mint writes. A signature is whatever the
  key's verification accepts: nothing is assumed of the signer.

## Findings

- A `removeMember` that throws after deleting the membership row (a failing notification is
  enough) leaves the removed user's field leases in the table, for at most one lease term:
  `StrandedLease.ThrownRemovalStrandsALease`, `RealtimeProperties.RemovalClearsLeasesUnlessItThrows`,
  `RealtimeProperties.LeasesOfNonMembers`. No write gets through on such a lease.
- `Mint` does not check three things that validation does: a lifetime of a whole second, a payload of
  at most 8192 bytes, and times from 1970 on. Requests that break one are minted and the token is never
  valid: `JwtProperties.UnusableRequestsAreMinted`, with one request each in `JwtProperties.ThreeUnusableTokens`.
- The backend's project progress is the mandatory percent, whatever the other sections hold, and
  equals the page's percent capped at 100 for every checklist, not only for short sections.
- The checklist page shows 150 (or 125) already at 98 percent of the last (or bonus) section; with one
  supplemental item unchecked it does so exactly from 40 items on: `Progress.OneItemLeftShows150`.
- The fixed-window limiter admits one call per window even with a limit of zero or less, and at
  most twice the limit less one in any interval of a window's length, which a burst reaches:
  `RateLimiter.LimitZeroAdmitsOne`, `RateLimiter.IntervalsAdmitLessThanTwice`, `RateLimiter.BurstReachesTheBound`.
- Lookups of an unknown key that overlap are not always coalesced into one read from Vault: the last check
  of a version is looked up before the refresh and recorded when a read begins, so a caller that looked
  before another's read began reads again after it, even when the version is known to be unknown by then:
  `KeyReadsProperties.OverlappingLookupsReadTwice`. A caller that looks later does not
  (`KeyReadsProperties.ReadsWereDue`).
- The renewal loop says it is ready with an expired credential in some run exactly when attempts can take
  longer than 22.5 seconds or leases can be shorter than three attempts: `VaultRenewal.NeverExpiresExactly`.
- A PATCH for a status without a rank, which read its task in another status, appends the task a second
  time if it is in that status by then, behind tasks that arrived there in between; no order of the
  requests that respects which had committed before another began gives that board:
  `BoardSerial.AppendingTwiceHasNoOrder`. It is the only way in which a request
  is not one step (`BoardSerial.CommitIsOneStepExactly`); without it every run is serial
  (`BoardSerial.BoardsAreSerial`).

## Model

| member | source | states |
|---|---|---|
| ProjectLock.WaitingMeansExclusiveFirst | backend/src/realtime/field-lock-manager.ts:359-368 | with no writer a non-empty queue starts with an exclusive waiter, so "an exclusive waiter anywhere" is "somebody waits" |
| ProjectLock.AcquireIsReference | backend/src/realtime/field-lock-manager.ts:359-402 | both fast paths equal queueing and then letting in the longest admissible prefix |
| ProjectLock.DrainIsReference | backend/src/realtime/field-lock-manager.ts:404-430 | drain lets in exactly the longest admissible prefix of the queue |
| ProjectLock.ReleaseIsReference | backend/src/realtime/field-lock-manager.ts:388-430 | a release equals leaving and settling in the reference lock |
| ProjectLock.SettleServesInOrder | backend/src/realtime/field-lock-manager.ts:404-430 | settling serves strictly from the front, loses nobody, leaves nobody admissible waiting |
| ProjectLock.AcquirePreserves | backend/src/realtime/field-lock-manager.ts:359-402 | an arrival adds exactly itself and keeps the lock sound |
| ProjectLock.ReleasePreserves | backend/src/realtime/field-lock-manager.ts:388-430 | a release removes exactly itself, keeps other holders and the lock sound |
| ProjectLock.StepKeepsOrder | backend/src/realtime/field-lock-manager.ts:359-430 | holders arrived before waiters, waiters queue in arrival order |
| ProjectLock.GrantsFollowArrivals | backend/src/realtime/field-lock-manager.ts:354-430 | over every run arrivals are the grants followed by the queue; a writer is alone; an idle lock has no waiters |
| ProjectCoordinators.ProjectCoordinator.AcquireShared | backend/src/realtime/field-lock-manager.ts:359-368 | the counter and array code is the value lock's shared acquire |
| ProjectCoordinators.ProjectCoordinator.AcquireExclusive | backend/src/realtime/field-lock-manager.ts:370-380 | the counter and array code is the value lock's exclusive acquire |
| ProjectCoordinators.ProjectCoordinator.IsIdle | backend/src/realtime/field-lock-manager.ts:382-386 | idle exactly when nobody holds or waits |
| ProjectCoordinators.ProjectCoordinator.Drain | backend/src/realtime/field-lock-manager.ts:404-430 | the loop over the waiters array is the value lock's drain, woken in queue order |
| ProjectCoordinators.ProjectCoordinator.ReleaseShared | backend/src/realtime/field-lock-manager.ts:394-397 | release of a reader, then drain |
| ProjectCoordinators.ProjectCoordinator.ReleaseExclusive | backend/src/realtime/field-lock-manager.ts:399-402 | release of the writer, then drain |
| KeyLock.SettledIsReleased | backend/src/realtime/field-lock-manager.ts:451-468 | a tail promise has settled exactly when its ticket was released |
| KeyLock.EntersWhenFirst | backend/src/realtime/field-lock-manager.ts:439-468 | a ticket can enter exactly when every earlier ticket of its key is released |
| KeyLock.TableHasNoIdleKeys | backend/src/realtime/field-lock-manager.ts:451-468 | the tails map holds exactly the keys somebody holds or waits for |
| KeyLock.SomebodyIsNext | backend/src/realtime/field-lock-manager.ts:439-468 | every busy key has a ticket that is inside or can enter |
| KeyLock.JoinPreserves | backend/src/realtime/field-lock-manager.ts:451-458 | chaining a new promise keeps tails, chain and service order |
| KeyLock.EnterPreserves | backend/src/realtime/field-lock-manager.ts:459-461 | a returning await keeps tails, chain and service order |
| KeyLock.ReleasePreserves | backend/src/realtime/field-lock-manager.ts:461-466 | deleting the tail only when nobody chained behind it keeps the invariant |
| KeyedCoordinators.KeyedCoordinator.Acquire | backend/src/realtime/field-lock-manager.ts:451-459 | the map update up to the await is a join |
| KeyedCoordinators.KeyedCoordinator.Release | backend/src/realtime/field-lock-manager.ts:461-466 | the release callback is a release of the ticket |
| Coordinator.RunInvariant | backend/src/realtime/field-lock-manager.ts:299-352 | locks, operations, map entries and tickets stay consistent in every run, with entries created and deleted |
| CoordinatorProperties.OneCoordinatorPerProject | backend/src/realtime/field-lock-manager.ts:303-352 | all unfinished operations of a project use one lock object, the one in the map |
| CoordinatorProperties.ExclusiveIsAlone | backend/src/realtime/field-lock-manager.ts:303-345 | a running exclusive operation overlaps no other operation of its project |
| CoordinatorProperties.KeyIsAlone | backend/src/realtime/field-lock-manager.ts:317-345 | two bodies on one resource key are one, across projects |
| CoordinatorProperties.ProjectOrder | backend/src/realtime/field-lock-manager.ts:299-430 | a later operation of a project never got the lock before an earlier one |
| CoordinatorProperties.KeyOrder | backend/src/realtime/field-lock-manager.ts:439-468 | on one key bodies run in ticket order |
| CallOrder.CallsRunInOrder | backend/src/realtime/field-lock-manager.ts:317-332 | calls of one project on one key run their bodies in the order they were made |
| CallOrder.ResumesInTurn | backend/src/realtime/field-lock-manager.ts:359-430 | whoever takes up its project lock finds every earlier call of the project gone on |
| CallOrder.RunInTurnOk | backend/src/realtime/field-lock-manager.ts:359-430 | the queue of resolved promises holds exactly the granted calls that wait to go on, those of a project in call order |
| CallOrder.FrontCanResume | backend/src/realtime/field-lock-manager.ts:354-430 | the front of that queue can always go on |
| CoordinatorProperties.NoDeadlock | backend/src/realtime/field-lock-manager.ts:299-468 | while an operation is unfinished some operation can step |
| CoordinatorProperties.StepDoesWork | backend/src/realtime/field-lock-manager.ts:299-352 | every step other than an arrival lowers the work left |
| CoordinatorProperties.StuckIsFinished | backend/src/realtime/field-lock-manager.ts:299-352 | a state without a step is one where all operations have finished |
| CoordinatorProperties.EveryOperationFinishes | backend/src/realtime/field-lock-manager.ts:299-352 | once no operation arrives, runs are bounded by the work left and can only end with everything finished |
| ProjectResourceCoordinators.ProjectResourceCoordinator.GetProject | backend/src/realtime/field-lock-manager.ts:335-342 | returns the project's entry or makes a fresh unlocked one |
| ProjectResourceCoordinators.ProjectResourceCoordinator.ReleaseProjectIfIdle | backend/src/realtime/field-lock-manager.ts:344-351 | deletes the entry only if idle and still this object |
| ProjectResourceCoordinators.ProjectResourceCoordinator.Begin | backend/src/realtime/field-lock-manager.ts:303-323 | getProject and the acquire change the map and the lock objects as the Begin step does |
| ProjectResourceCoordinators.ProjectResourceCoordinator.Leave | backend/src/realtime/field-lock-manager.ts:309-332 | the release and releaseProjectIfIdle change them as the Leave step does |
| Leases.AcquireOutcome | backend/src/realtime/field-lock-manager.ts:87-114 | a refused acquire leaves the other socket's live lease as it is |
| FieldOutcomes.AcquiresExactly | backend/src/realtime/field-lock-manager.ts:87-114 | a new lease of 30 s on a free key, 30 s more for the caller's own, nothing for somebody else's |
| FieldOutcomes.RenewsExactly | backend/src/realtime/field-lock-manager.ts:116-135 | 30 s from now for the caller's own unexpired lease; an expired one goes, anybody else's stays |
| FieldOutcomes.LetsGoExactly | backend/src/realtime/field-lock-manager.ts:137-255 | each other call lets the key's lease go exactly in its own case |
| LeaseHistory.EveryLeaseLeavesOnce | backend/src/realtime/field-lock-manager.ts:87-190 | over any calls every lease ever made is present or left exactly once, with one record |
| LeaseHistory.TokenMeansSameLease | backend/src/realtime/field-lock-manager.ts:192-232 | a token seen twice is one lease that stayed in the table in between |
| LeaseHistory.SecondCheckSuffices | backend/src/realtime/field-lock-manager.ts:192-232 | the operation starts on the very lease the first check saw, unexpired, though the second check compares only the token |
| FieldLockManagers.FieldLockManager.Acquire | backend/src/realtime/field-lock-manager.ts:87-114 | table, answer and expiry records of an acquire: refused, renewed or new |
| FieldLockManagers.FieldLockManager.Renew | backend/src/realtime/field-lock-manager.ts:116-135 | extends only the caller's own unexpired lease with its token |
| FieldLockManagers.FieldLockManager.Get | backend/src/realtime/field-lock-manager.ts:137-141 | the public form of a live lease, dropping an expired one |
| FieldLockManagers.FieldLockManager.Release | backend/src/realtime/field-lock-manager.ts:143-151 | removes only the socket's own lease and returns its record |
| FieldLockManagers.FieldLockManager.ReleaseResource | backend/src/realtime/field-lock-manager.ts:153-161 | removes whatever lease the key has and returns its record |
| FieldLockManagers.FieldLockManager.ReleaseUserInProject | backend/src/realtime/field-lock-manager.ts:163-172 | removes exactly the user's leases in the project, one record each, in iteration order |
| FieldLockManagers.FieldLockManager.Validate | backend/src/realtime/field-lock-manager.ts:201-217 | first check of a validated update: present, same user and project, token, unexpired |
| FieldLockManagers.FieldLockManager.Revalidate | backend/src/realtime/field-lock-manager.ts:221-228 | second check after authorization: token and clock |
| FieldLockManagers.FieldLockManager.AssertLeaseOwnerIfLocked | backend/src/realtime/field-lock-manager.ts:234-255 | passes when unlocked or when the caller owns the lease |
| FieldLockManagers.FieldLockManager.SweepKey | backend/src/realtime/field-lock-manager.ts:257-280 | the expiry timer removes a key's lease only if it is expired by then |
| FieldLockManagers.FieldLockManager.ReleaseIfExpired | backend/src/realtime/field-lock-manager.ts:282-293 | an expired lease leaves once, with one record to the handler |
| RealtimeSafety.RunInvariant | backend/src/project-members/project-members.service.ts:197-313 | in every run, what an operation checked behind its lock still holds, and lease holders are members or were removed by a call that threw |
| RealtimeProperties.WritesAreByMembers | backend/src/chat/chat.service.ts:210-284 | in every interleaving a write under the coordinator runs while its user is a member of the project, and a change of a membership while its requester may still make it |
| MembershipRules.ClearedExactly | backend/src/project-members/project-members.service.ts:58-370 | a membership request is cleared exactly when the owner or an admin makes it, an admin's row takes the owner, the owner's row nobody; leaving is everybody's but the owner's |
| MembershipRules.MembersChangeByRight | backend/src/project-members/project-members.service.ts:58-370 | over every run, each change, removal and addition of a row was one its requester was entitled to at that step, read off the rows alone |
| MembershipRules.ClearedIsDone | backend/src/project-members/project-members.service.ts:58-370 | a cleared request writes what it asked for to its target's row and no other |
| MembershipRules.AdmittedExactly | backend/src/realtime/realtime.gateway.ts:312-470 | any other request goes on exactly for a member, and about a field only if it is the project's |
| RealtimeProperties.OnlyExpiryStopsAValidatedUpdate | backend/src/realtime/field-lock-manager.ts:192-232 | behind the locks only expiry can happen to a lease between the two checks |
| RealtimeProperties.LiveLeasesEndByTheirOwn | backend/src/discovery-blocks/discovery-blocks.service.ts:229-266 | a live lease ends only by its own socket, by a removal of the item by its user with its token, or by the user's removal from the project |
| FieldOutcomes.MessagesExactly | backend/src/realtime/field-lock-manager.ts:87-189 | what a lock, unlock, renewal, query, disconnect and the timer leave at their key, in all cases |
| FieldOutcomes.FirstCheckExactly | backend/src/realtime/field-lock-manager.ts:191-235 | the first check passes exactly for the user's own unexpired lease in the project, shown with its token |
| FieldOutcomes.SecondCheckExactly | backend/src/realtime/field-lock-manager.ts:220-235 | the second one exactly while the key has an unexpired lease of that token |
| FieldOutcomes.OwnerCheckExactly | backend/src/realtime/field-lock-manager.ts:237-255 | a removal goes on exactly when the item is not locked, or locked by its user with the token |
| FieldOutcomes.BodyEndsExactly | backend/src/chat/chat.service.ts:210-284 | a write is recorded with its user and membership, a return is a success and a throw a failure, and nothing else changes |
| RealtimeProperties.LeasesOfNonMembers | backend/src/project-members/project-members.service.ts:192-313 | a non-member's lease exists only after a removal that threw, and ends within one term |
| RealtimeProperties.RemovalClearsLeasesUnlessItThrows | backend/src/project-members/project-members.service.ts:232-313 | a removal that completes leaves no lease of the user; one that throws after the deletion leaves all of them |
| RealtimeProperties.OwnersStay | backend/src/project-members/project-members.service.ts:197-421 | no add, removal or role change takes an owner away |
| RealtimeProperties.NoSecondOwner | backend/src/project-members/project-members.service.ts:58-421 | no add, removal or role change makes a second owner |
| RealtimeProperties.OneOwnerPerProject | backend/src/project-members/project-members.service.ts:58-421 | in every run each project with members has exactly one owner |
| StrandedLease.ThrownRemovalStrandsALease | backend/src/project-members/project-members.service.ts:232-313 | a reachable run ends with a removed user still holding a lease |
| RefreshChain.UseIsPosition | auth/internal/store/store.go:553-568 | a use is current, in grace or a replay by the token's place in its chain and five seconds |
| RefreshChain.OneHead | auth/internal/store/store.go:395-551 | a family has one unreplaced token, the end of its chain |
| RefreshChain.AdvanceGrowsChain | auth/internal/store/store.go:491-551 | rotating the head appends one token to the chain |
| RefreshChain.RotateHead | auth/internal/store/store.go:491-551 | the head of a live family rotates: the chain grows by the token returned, idle deadline capped by the absolute one |
| RefreshChain.RotateInGrace | auth/internal/store/store.go:433-464 | the head's predecessor gets the head back within five seconds and no row changes |
| RefreshChain.RotateReplayed | auth/internal/store/store.go:465-490 | any other token revokes every family of the user |
| RefreshRuns.RunPreserves | auth/internal/store/store.go:258-551 | over every run every family is a chain |
| RefreshProperties.FamiliesAreChains | auth/internal/store/store.go:258-339 | one linear chain, one head, unused exactly when unreplaced, head deadline = idle deadline <= absolute deadline |
| RefreshProperties.AbsoluteDeadlineIsFixed | auth/internal/store/store.go:258-339 | no operation changes a family's absolute deadline or user, or deletes it |
| RefreshProperties.RotationOutcomes | auth/internal/store/store.go:341-551 | past the liveness and CSRF checks the "no current token", "chain changed", expired-head and bad-successor branches are unreachable |
| RefreshProperties.RotationSucceedsExactly | auth/internal/store/store.go:396-568 | with a cipher and a new token a rotation succeeds exactly for an active account's family that is not revoked and within both deadlines, its CSRF value, and the head or its predecessor within five seconds |
| RefreshProperties.RotationReturnsTheHead | auth/internal/store/store.go:396-551 | a success returns the head afterwards; only the head, or its predecessor within five seconds, succeeds; the grace path changes nothing |
| RefreshProperties.RevocationIsPermanent | auth/internal/store/store.go:570-783 | a revoked family stays revoked, and rotate, get, revoke, introspect, ticket issue and consume all fail for it |
| RefreshProperties.ReplayEndsEverySession | auth/internal/store/store.go:465-490 | any other chain token with the right CSRF value revokes every family of the user, for good |
| RefreshTickets.TicketAdmitsOnce | auth/internal/store/store.go:664-754 | a consume follows an issue of that ticket by less than 60 s, for its user and family, the account active and the family not revoked and within its deadlines, and is the first |
| RefreshOutcomes.SuspensionEndsEverySession | auth/internal/store/store.go:396-783 | while an account is not active nothing works for any of its families: rotate, get, revoke, introspect, issue, consume |
| RefreshOutcomes.StatusDecides | auth/internal/store/store.go:633-662 | a status that is not active suspends, an active one brings an untouched family back |
| RefreshOutcomes.IntrospectsExactly | auth/internal/store/store.go:633-662 | a session check succeeds exactly for the family's user, active, not revoked, within both deadlines |
| RefreshOutcomes.CreatedSession | auth/internal/store/store.go:258-339 | the answer and rows of a creation; its two secrets open the family until the idle deadline, another CSRF value does not |
| RefreshOutcomes.RotatedRows | auth/internal/store/store.go:341-551 | the answer and every row of a rotation of the head |
| RefreshOutcomes.GraceAnswer | auth/internal/store/store.go:424-464 | the answer to the head's predecessor: the secret minted for the head, the deadlines as they are |
| RefreshOutcomes.ReplayedRows | auth/internal/store/store.go:465-490 | a replay revokes now exactly the user's families that were not revoked |
| RefreshOutcomes.RefusedRotation | auth/internal/store/store.go:341-551 | other refusals change nothing; the one for the CSRF value in exactly its case |
| RefreshOutcomes.RevokesExactly | auth/internal/store/store.go:613-631 | a logout succeeds exactly for an unexpired head and CSRF value of a usable family, and revokes that family and nothing else |
| RefreshOutcomes.LogoutIsFinal | auth/internal/store/store.go:570-783 | after a logout nothing works for the family, in every later state |
| RefreshOutcomes.IssuesExactly | auth/internal/store/store.go:664-715 | a ticket of 60 s exactly for a session that passes the check; at most 100 old tickets go |
| RefreshOutcomes.ConsumesExactly | auth/internal/store/store.go:717-754 | a ticket admits exactly unconsumed, in time, for a session that passes the check, and then no more |
| Stores.Store.CreateRefreshFamily | auth/internal/store/store.go:258-339 | rows and answer of a creation: a family with both deadlines counted from now and its first token |
| Stores.Store.RotateRefreshToken | auth/internal/store/store.go:341-551 | rows and answer of a rotation in each branch |
| Stores.Store.CurrentToken | auth/internal/store/store.go:414-432 | the lookup of the family's unreplaced token |
| Stores.Store.GetRefreshFamily | auth/internal/store/store.go:570-611 | answers only for a live family with the right CSRF value, changes nothing |
| Stores.Store.RevokeRefreshFamily | auth/internal/store/store.go:613-631 | revokes that one family |
| Stores.Store.IssueWebSocketTicket | auth/internal/store/store.go:664-715 | a ticket of 60 s for a live family, after deleting a batch of expired ones |
| Stores.Store.ConsumeWebSocketTicket | auth/internal/store/store.go:717-754 | marks an unconsumed, unexpired ticket of a live family consumed |
| Board.CountIsLength | backend/src/tasks/tasks.service.ts:495-511 | the row count of a dense column is the length of its list |
| Board.CloseCutsTheList | backend/src/tasks/tasks.service.ts:474-488 | decrementing the ranks behind a task leaves the column without it dense |
| Board.OpenInserts | backend/src/tasks/tasks.service.ts:495-522 | incrementing the ranks from a slot and writing the task there is list insertion |
| Board.CreateInserts | backend/src/tasks/tasks.service.ts:111-156 | creating inserts at the clamped rank; all other columns stay |
| Board.RemoveDeletes | backend/src/tasks/tasks.service.ts:436-463 | removing deletes from the list; all other columns stay |
| Board.MoveReinserts | backend/src/tasks/tasks.service.ts:531-606 | a move is delete and then insert at the clamped rank, within a column or across, with and without status and rank |
| BoardPlaces.CreatedPlace | backend/src/tasks/tasks.service.ts:111-156 | a created task stands at the rank asked for if the column has it, else at the nearest end |
| BoardPlaces.MovedPlace | backend/src/tasks/tasks.service.ts:531-606 | a moved task stands in the column asked for, at the rank asked for among the others, the nearest end, or last without one |
| BoardPlaces.RemovedPlace | backend/src/tasks/tasks.service.ts:436-463 | a removal takes exactly that task and no other out of its column |
| BoardPlaces.PatchedPlace | backend/src/tasks/tasks.service.ts:245-303 | a PATCH in any state: where its task ends, and exactly when nothing changes |
| Board.ShownOnce | backend/src/tasks/tasks.service.ts:474-522 | the lists determine the rows |
| BoardRuns.MoveKeepsOthersInOrder | backend/src/tasks/tasks.service.ts:531-606 | apart from the moved task every column keeps its order, and the task stands at the clamped rank of its target only |
| BoardRuns.RepeatedMoveChangesNothing | backend/src/tasks/tasks.service.ts:531-606 | delivering a move twice equals delivering it once |
| BoardRuns.MoveIsIdleExactly | backend/src/tasks/tasks.service.ts:531-606 | a move changes nothing exactly when the task already stands at the clamped rank of the target |
| BoardRuns.SkippedPatchIsIdleMove | backend/src/tasks/tasks.service.ts:286-296 | a PATCH with the current rank that skips the move loses nothing |
| BoardRuns.BoardsAreLists | backend/src/tasks/tasks.service.ts:245-606 | from an empty board, in every interleaving of reads and transactions, the rows are the lists |
| BoardRuns.RanksArePermutations | backend/src/tasks/tasks.service.ts:474-606 | in every reachable board a column's ranks are a permutation of 0..n-1 |
| BoardSerial.CommitIsOneStepExactly | backend/src/tasks/tasks.service.ts:245-303 | what a request does at its commit (a skipped PATCH: at its read) is what it would do in one step there, exactly unless a PATCH appends its task a second time |
| BoardSerial.BoardsAreSerial | backend/src/tasks/tasks.service.ts:245-606 | every run without such a PATCH ends with the rows of serving its requests one at a time, each between its read and its commit |
| BoardActs.EveryCommitActsOnce | backend/src/tasks/tasks.service.ts:245-606 | that order has the committed requests and no others, each once, at a moment from its read to its commit, in the order of these moments |
| BoardSerial.AppendingTwiceHasNoOrder | backend/src/tasks/tasks.service.ts:536-606 | a reachable run with such a PATCH ends with a board that no order of its requests gives that respects which had committed before another began |
| TaskBoards.TaskBoard.CloseRankGap | backend/src/tasks/tasks.service.ts:474-488 | the bulk decrement in place |
| TaskBoards.TaskBoard.OpenRankSlot | backend/src/tasks/tasks.service.ts:495-522 | the count, the clamp and the bulk increment in place |
| TaskBoards.TaskBoard.CreateTask | backend/src/tasks/tasks.service.ts:111-156 | the create transaction as a sequence of updates |
| TaskBoards.TaskBoard.RemoveTask | backend/src/tasks/tasks.service.ts:436-463 | the remove transaction as a sequence of updates |
| TaskBoards.TaskBoard.MoveTask | backend/src/tasks/tasks.service.ts:531-606 | the move transaction as a sequence of updates; a missing task changes nothing |
| Base64Url.DecodeUndoesEncode | auth/internal/token/token.go:376-388 | decoding an encoded byte string gives it back |
| Base64Url.PartDecodesExactly | auth/internal/token/token.go:376-388 | a part decodes to b exactly when it is the encoding of b and b is within the limit |
| Base64Url.EncodeIsInjective | auth/internal/token/token.go:376-388 | different byte strings have different texts |
| Base64Url.StandardDecoderIsLenient | auth/internal/token/token.go:380-383 | without the comparison with the re-encoded text one byte would have several texts |
| Base64Texts.AlphabetInOrder | auth/internal/token/token.go:376-388 | the 64 digits are the base64url alphabet of RFC 4648 section 5 in order, and no other character has a value |
| Base64Texts.FullGroup | auth/internal/token/token.go:376-388 | three bytes are the four characters that write the same 24-bit number (RFC 4648 section 4) |
| Base64Texts.LastGroup | auth/internal/token/token.go:376-388 | one or two bytes left are two or three characters, with zero bits added and no padding |
| Jwt.DecodeObject | auth/internal/token/token.go:390-431 | the loop over members yields the map of them, or nothing if a key repeats |
| JwtProperties.SplitThenJoin | auth/internal/token/token.go:365-374 | splitting at dots loses nothing |
| JwtProperties.CompactSplits | auth/internal/token/token.go:365-374 | a token of encoded parts splits into exactly these parts, within the length limit |
| JwtProperties.LargestPartsFit | auth/internal/token/token.go:19-25 | a header of 1024 and a payload of 8192 bytes always fit 16384 characters |
| JwtProperties.HeaderValidates | auth/internal/token/token.go:433-450 | the minted header is accepted and names its key |
| JwtProperties.PayloadParses | auth/internal/token/token.go:452-511 | the minted payload parses to its claims in whole seconds, exactly when its times fit |
| JwtProperties.ValidateOfCompact | auth/internal/token/token.go:247-303 | what validation makes of any signed text of claims, in all cases |
| JwtProperties.MintedShape | auth/internal/token/token.go:138-232 | a minted token is the signed text of the request's claims, verified before it is returned |
| JwtProperties.MintedValidatesExactly | auth/internal/token/token.go:138-303 | a minted token validates to its claims exactly for iat - leeway <= now < exp + leeway, a lifetime of a second, times from 1970 and parts within limits |
| JwtProperties.ShortLifetimeIsNeverValid | auth/internal/token/token.go:343-355 | a positive lifetime under a second mints a token that is never valid |
| JwtProperties.UnusableRequestsAreMinted | auth/internal/token/token.go:138-232 | a request with a lifetime under a second, a time before 1970 or a payload over 8192 bytes is minted, and its token is invalid at every clock |
| JwtProperties.ThreeUnusableTokens | auth/internal/token/token.go:343-355 | one such request of each kind, minted by any library and signer that go together |
| JwtProperties.AcceptedIsSignedAndCanonical | auth/internal/token/token.go:247-303 | an accepted token is the one text of its bytes, signed by the key its header names, with claims that hold now |
| JwtOutcomes.AcceptsExactly | auth/internal/token/token.go:247-303 | a token is accepted with given claims exactly if it is the text of a header, payload and signature that are acceptable, said on their bytes and members |
| JwtOutcomes.HeaderExactly | auth/internal/token/token.go:433-450 | a header is alg EdDSA, typ JWT and a valid kid, and nothing else |
| JwtOutcomes.ClaimsExactly | auth/internal/token/token.go:452-511 | the claims are what the payload's members of those names say, none missing or empty |
| JwtOutcomes.BlamesProviderExactly | auth/internal/token/token.go:271-286 | a failing key provider is reported as such and never as an invalid token |
| JwtOutcomes.MintsExactly | auth/internal/token/token.go:138-232 | exactly which requests are minted, and to which text |
| JwtOutcomes.MintedSaysTheRequest | auth/internal/token/token.go:138-303 | a minted token validates to the request's values field by field, times in whole seconds, exactly when it is good |
| VaultRenewal.PlanIsSafe | auth/internal/vault/runtime.go:421-427 | the renewal delay leaves an attempt's time before the first expiry |
| VaultRenewal.StepIsSafe | auth/internal/vault/runtime.go:339-389 | every reply of every attempt keeps the next action before the first expiry |
| VaultRenewal.GivesUpExactly | auth/internal/vault/runtime.go:122-134 | readiness ends exactly on an unauthorized reply, or on a failed attempt with a minute or less to an expiry |
| VaultRenewal.ExpiriesAreGranted | auth/internal/vault/runtime.go:339-389 | the recorded expiries are those that were granted, from the moment of the grant or the connection |
| VaultRenewal.NewLoginIssuesAnew | auth/internal/vault/runtime.go:339-389 | the order of requests in an attempt: after a new login the database credential is issued anew |
| VaultRenewal.GrantedRunsStayReady | auth/internal/vault/runtime.go:111-135 | while requests are granted the service stays ready |
| VaultRenewal.ReadyMeansUnexpired | auth/internal/vault/runtime.go:111-135 | over every run, ready means neither recorded expiry has passed, for attempts up to 22.5 s and leases three times as long |
| VaultRenewal.SeventyFiveSecondsSuffice | auth/internal/vault/runtime.go:111-135 | in particular for leases of 75 s and attempts under 22 s |
| VaultRenewal.NeverExpiresExactly | auth/internal/vault/runtime.go:111-135 | no run is ready past an expiry exactly when attempts take at most 22.5 s and leases last three attempts, to the nanosecond |
| VaultRenewal.SlowAttemptsExpireWhileReady | auth/internal/vault/runtime.go:111-135 | longer attempts: a run is still ready at the database expiry, however long the leases |
| VaultRenewal.ShortLeasesExpireWhileReady | auth/internal/vault/runtime.go:111-135 | shorter leases: a run is still ready at the token expiry, however quick the attempts |
| KeyIds.VersionsAreWrittenIds | auth/internal/vault/client.go:289-298 | parse, print and compare reads a version from exactly the id that is printed for it, within 63 bits |
| KeyIds.OneIdPerVersion | auth/internal/vault/client.go:289-298 | a version has one key id, so keys may be kept by either |
| KeyIds.CachedIdsAreTokenIds | auth/internal/token/token.go:603-612 | signs, leading zeros and overflow included, the cache knows exactly the ids a token may name that fit 63 bits |
| KeyVersions.TransitKeyInfo | auth/internal/vault/client.go:230-251 | an accepted answer has a positive latest version, its key, and no higher one |
| KeyVersions.CutKeepsHighest | auth/internal/vault/runtime.go:266-279 | sorting and cutting keeps the highest min(n, size) versions |
| KeyVersions.KeptMirrors | auth/internal/vault/runtime.go:266-287 | what is kept of an answer are its 32 highest keys, latest included, unchanged |
| PublicKeyCaches.Remember | auth/internal/vault/runtime.go:295-337 | at most 64 entries, expired ones dropped, at most one live entry evicted, an oldest, and only when 64 are live |
| PublicKeyCaches.PublicKeyCache.InstallKeyInfo | auth/internal/vault/runtime.go:266-287 | the cache mirrors the answer and forgets its unknown keys |
| PublicKeyCaches.PublicKeyCache.Start | auth/internal/vault/runtime.go:98-108 | serving starts with a key set that was read |
| PublicKeyCaches.PublicKeyCache.Lookup | auth/internal/vault/runtime.go:179-203 | a cached key, a version known to be unknown, one that may not be asked about, or a refresh, in that order |
| PublicKeyCaches.PublicKeyCache.BeginRefresh | auth/internal/vault/runtime.go:216-241 | a caller is up to date, waits for the read under way, or is the only one to read |
| PublicKeyCaches.PublicKeyCache.FinishRefresh | auth/internal/vault/runtime.go:243-257 | an answer replaces the keys, a failure keeps them; what is still unknown is remembered |
| PublicKeyCaches.PublicKeyCache.AfterWait | auth/internal/vault/runtime.go:222-236 | a waiter takes the outcome of the read it waited for and remembers what is still unknown |
| PublicKeyCaches.PublicKeyCache.RefreshPublicKeys | auth/internal/vault/runtime.go:216-258 | with no read under way: asks exactly when forced or stale; a failure keeps the keys |
| PublicKeyCaches.PublicKeyCache.SigningKeyID | auth/internal/vault/runtime.go:148-168 | while ready, the last answer's latest version, cached and fresh; none only when not ready or when the read fails |
| PublicKeyCaches.PublicKeyCache.PublicKey | auth/internal/vault/runtime.go:170-214 | a found key is the last answer's; Vault is read exactly, while ready, for versions not cached, not remembered as unknown, within 32 above latest and not checked in the last 30 s |
| KeyReadsProperties.RunInvariant | auth/internal/vault/runtime.go:148-258 | cache, calls and reads from Vault stay consistent in every interleaving of the sections |
| KeyReadsProperties.OneReadAtATime | auth/internal/vault/runtime.go:216-258 | one caller at most reads from Vault, exactly while a refresh is under way |
| KeyReadsProperties.ReadsWereDue | auth/internal/vault/runtime.go:170-214 | however calls overlap, a version read was within 32 above the latest its caller saw, and the caller saw no read of it in the last 30 s unless 64 versions were read since |
| KeyReadsProperties.OutcomesAreTheAnswers | auth/internal/vault/runtime.go:148-214 | whatever a call waited for, the key or version it ends with is that of the answer installed then |
| KeyReadsProperties.LookedUpOutcome | auth/internal/vault/runtime.go:148-203 | a call that is over at its first look has the last answer's key or fresh latest version, or a version remembered as unknown |
| KeyReadsProperties.FailsExactly | auth/internal/vault/runtime.go:148-258 | a call fails exactly when the read it made or waited for failed, or no signing key is there |
| KeyReadsProperties.WaitsForTheRead | auth/internal/vault/runtime.go:221-241 | a call that finds a read under way goes on only when that read has ended |
| KeyReadsProperties.NobodyIsStuck | auth/internal/vault/runtime.go:216-258 | as long as a call is not over, some call can go on or Vault can answer it |
| KeyReadsProperties.SectionsAdvance | auth/internal/vault/runtime.go:148-258 | each section brings its call nearer to its end and moves no other call |
| KeyReadsProperties.OverlappingLookupsReadTwice | auth/internal/vault/runtime.go:170-241 | a run in which two lookups read one version one after the other, the second when it is known to be unknown |
| PublicKeyCaches.PublicKeyCache.RememberUnknownKey | auth/internal/vault/runtime.go:289-315 | an unknown key is remembered for 30 s in a bounded map |
| PublicKeyCaches.PublicKeyCache.RememberUnknownKeyCheck | auth/internal/vault/runtime.go:317-337 | a check is remembered with its time in a bounded map |
| Like.ContainsIsSubstring | backend/src/search/search.service.ts:82-85 | the filter matches exactly the strings that contain the term, with or without case folding |
| Like.PatternIsAccepted | backend/src/search/search.service.ts:202-211 | no escaped pattern ends in a dangling escape |
| Like.UnescapedPercentMatchesAll | backend/src/search/search.service.ts:202-208 | without escaping the term %% matches every string |
| ChatPaging.PageIsNewestBeforeCursor | backend/src/chat/chat.service.ts:48-73 | a page is the newest messages before the cursor, oldest first |
| ChatPaging.NextPageShrinks | backend/src/chat/chat.service.ts:48-73 | each full page leaves that many fewer messages to show, under deletions and arrivals not before its oldest message |
| ChatPaging.PagingEnds | backend/src/chat/chat.service.ts:48-73 | n messages take at most n / take + 1 pages |
| ChatPaging.LoadedInOrder | backend/src/chat/chat.service.ts:48-73 | what is loaded is strictly ascending, so nothing is shown twice |
| ChatPaging.LoadedIsComplete | backend/src/chat/chat.service.ts:48-73 | a message that stays is loaded, even if cursor messages are deleted |
| ChatPaging.HistoryIsComplete | backend/src/chat/chat.service.ts:48-73 | paging from the newest page ends with every staying message once, in order |
| Progress.ComputeEvaluationChecklistProgress | frontend/src/lib/evaluationChecklistProgress.ts:46-87 | the accumulated object is the gated sum over open sections |
| Progress.ComputeProjectProgress | backend/src/projects/projects.service.ts:49-75 | the card's percent is the mandatory percent and the page's percent capped at 100 |
| Progress.HundredPercentExactly | frontend/src/lib/evaluationChecklistProgress.ts:36-44 | 100 exactly when non-empty and at most one item in 200 is unchecked |
| Progress.HundredPercentIsComplete | backend/src/evaluation-checklist-items/evaluation-checklist-items.service.ts:171-193 | below 200 items, and 50 are admitted, 100 means fully checked |
| Progress.ReadinessStartsWithMandatory | frontend/src/lib/evaluationChecklistProgress.ts:46-87 | the page's percent is whole, in 0..150, and starts with the mandatory percent |
| Progress.PercentInQuarters | frontend/src/lib/evaluationChecklistProgress.ts:65-87 | the percent in integer arithmetic, rounded half up |
| ProgressCounts.CountsExactly | frontend/src/lib/evaluationChecklistProgress.ts:46-87 | the page counts checked and all items of the sections that are open |
| ProgressCounts.PercentIsNearest | frontend/src/lib/evaluationChecklistProgress.ts:36-44 | a section's percent is the whole number nearest to the share of checked items, the upper of two |
| Progress.ThresholdsExactly | frontend/src/lib/evaluationChecklistProgress.ts:14-19 | 150 and 125 are reached exactly from 98 percent of their section on |
| Progress.OneItemLeftShows150 | frontend/src/lib/evaluationChecklistProgress.ts:65-87 | with all but one supplemental item checked the page shows 150 exactly from 40 such items on |
| Progress.TierNeedsEarlierSections | frontend/src/lib/evaluationChecklistProgress.ts:89-101 | a tier is worn exactly when the sections before are complete and its own reaches 2 percent |
| Progress.CheckingNeverLowers | frontend/src/lib/evaluationChecklistProgress.ts:46-87 | checking an item never lowers the page's percent |
| RateLimiter.TableIsBounded | auth/internal/middleware/rate_limiter.go:30-56 | the table never exceeds its maximum |
| RateLimiter.OthersStayUnlessFull | auth/internal/middleware/rate_limiter.go:30-65 | a call drops other keys' entries only when they fill the table, and then only expired ones |
| RateLimiter.LiveWindowIsExact | auth/internal/middleware/rate_limiter.go:30-56 | in a live window a key's calls are allowed until the limit is used up, then refused, whatever other keys do |
| RateLimiter.OthersHaveNoSay | auth/internal/middleware/rate_limiter.go:30-56 | other keys' calls never change the answers of a key with a live window |
| RateLimiter.NewWindowOpensExactly | auth/internal/middleware/rate_limiter.go:30-65 | a key without a live window gets one exactly when fewer than the maximum of other keys have one; expired entries never block |
| RateLimiter.WindowAdmitsBudget | auth/internal/middleware/rate_limiter.go:30-56 | a window admits as many calls as come, up to the limit, and one if the limit is below one |
| RateLimiter.LimitZeroAdmitsOne | auth/internal/middleware/rate_limiter.go:30-56 | with a limit of zero or less the first of two calls in a window is let through |
| RateLimiter.IntervalsAdmitLessThanTwice | auth/internal/middleware/rate_limiter.go:30-65 | at non-decreasing times any half-open interval of a window's length admits at most twice that, less one |
| RateLimiter.BurstReachesTheBound | auth/internal/middleware/rate_limiter.go:30-65 | a burst at a window's edge reaches that bound for every limit |
| FixedWindowLimiters.FixedWindowLimiter.Allow | auth/internal/middleware/rate_limiter.go:30-56 | the map updates in place, branch by branch |
| FixedWindowLimiters.FixedWindowLimiter.RemoveExpired | auth/internal/middleware/rate_limiter.go:58-65 | deleting while iterating, in any order, removes exactly the expired entries |

## Left out

- HTTP handlers, cookies, Socket.IO rooms and broadcasts, notifications, e-mail, storage, OAuth, the user interface.
- SHA-256, AES-GCM, Ed25519, HMAC: injective, inverse or abstract functions. The four base64 forms a
  Vault signature may come in are not modelled; a signature arrives as bytes and a key version.
- PostgreSQL isolation: serialization failures, and the refresh store's reads outside the lock of a family.
- `runProject` and `runProjectResource` are cut at their awaits: `ProjectResourceCoordinator.Begin` and
  `Leave` are the parts before and after, and what happens in between is a transition system, not code.
- Refresh rows are keyed by token hash, which is unique, instead of by row id.
- Deletion of accounts and projects, which the database cascades.
- Progress.ComputeProjectProgress: percents are exact rationals; binary floating point is not modelled.
- Boards loaded by the seed script, which numbers ranks per category, are not dense and are out of scope.
- Task fields other than status and rank, assignees, and the checks on dates and categories.
- VaultRenewal.ReadyMeansUnexpired: cancellation of the context, which ends the loop, is not a step; timers fire on
  time, and a late timer counts as part of the attempt that follows it.
- PublicKeyCaches.PublicKeyCache.PublicKey: the whole call is stated for the case that no read is under way.
  Calls that overlap are the sections of `KeyReads` in any order, of which `KeyReadsProperties` states what
  holds; the end of a wait or a read by cancellation of the caller is not a step there.
- PublicKeyCaches.PublicKeyCache.RefreshPublicKeys: see the line above.
- PublicKeyCaches.PublicKeyCache.SigningKeyID: see the line above.
- Jwt.DecodeObject: the JSON tokenizer is given; a text that is not one object yields no members.
- Like.ContainsIsSubstring: case folding is any function of single characters.
- ChatPaging.HistoryIsComplete: no message arrives before the oldest message loaded so far; creation times default to the present.
- Search visibility predicates, page slices and sort orders; friend relationships; unread markers.
