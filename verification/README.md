# Verification of the permit platform

A Dafny model of the parts of the platform that have to be right under concurrency, failure and time:
the job queue and its worker, sessions and the second factor, one-time passwords, idempotency keys and refunds,
migrations, pagination, the integration roadmap, the contractor's folder tree, the compliance gate and the permit
checklist. `dafny verify dfyconfig.toml` checks everything.

## How it is built

Each module follows one source file or one protocol. A transaction of the source is a function from the state
before to the state after; where the source updates objects or loops, a class or method does the same in place and
is proved to compute that function. Runs are sequences of such steps by any number of parties in any order, and the
main results hold for every run. Wall-clock time, hashes, keys, random draws and the answers of outside services
are parameters.

| module | subject |
|---|---|
| `JobQueue`, `JobRuns`, `Scheduler`, `Runner` | the job table and its operations; runs of many workers; the scheduler with its reaper exemption; the worker loop |
| `Transactions`, `Sessions`, `SecondFactor` | commit on return and rollback on throw; refresh tokens; challenges and recovery codes |
| `Base32`, `Totp` | the codec and the one-time passwords |
| `Idempotency`, `Refunds`, `PaymentProvider`, `RefundRuns`, `RefundRetries`, `Migrations` | at most once: keyed requests; refunds under them, beside a provider that remembers keys; concurrent deploys |
| `Pagination` | walks over a changing table |
| `Roadmap`, `Portal` | the build list; the folder tree |
| `Calendar`, `Compliance` | calendar days; the filing gate |
| `Intake`, `Checklist` | the document rules; the stored checklist and the application's life |

## What the proofs turned up

- `failJob` (src/jobs/queue.ts:197) updates by id alone. A late report can release a row that somebody else is running
  and lets a job exceed its attempts (`JobRuns.StaleFailureBreaksTheBudget`); a guard on the worker id would not be
  enough for the budget (`JobRuns.OwnershipIsNotEnough`). `JobRuns.LateReportIsHarmlessIff` says exactly when a report
  leaves the present owner alone, `JobRuns.FailKeepsBudgetIff` exactly when it keeps the budget. A late report also
  reopens a job that has succeeded (`JobRuns.FinishedRowChangesIff`, `JobRuns.FinishedJobRunsAgain`). The budget results
  assume that a failure comes from the attempt the row is on; ownership, leases and unique keys need no such premise.
- The partial unique index can make a late `failJob`, or `retryDeadJob`, throw when another live job has taken the key
  (`JobRuns.RefusedFailureIsLate` says exactly when, `JobRuns.RefusedFailureRun` is a run).
- A timed-out handler gives its slot back and runs on, so the concurrency bounds jobs, not running handlers
  (`Runner.HandlersCanPileUp`, exactly when in `Runner.HandlersStayWithinIff`). A claim in the air when the worker is
  told to stop still starts its jobs (`Runner.StartsAfterStopIff`, `Runner.StartsAfterStop`).
- `verifyTotp` throws during the first thirty seconds of 1970: the step before it is negative (`Totp.ThrowsIff`).
- The idempotency answers "still being processed" and the `failed` mark never reach anyone: the insert waits for the
  other transaction, and the mark rolls back with the claim (`Idempotency.NeverStillInFlight`).
- A deploy that took its snapshot before another finished fails at its first pending migration instead of finding
  nothing to do (`Migrations.OvertakenDeployNeverCommits`, `Migrations.DeployIsOvertaken`). Safety comes from the
  primary key, not from the lock.
- A refund can be moved by the provider and lost in the ledger. The key keeps it from being moved again, and the same
  request repeated records it (`RefundRuns.RefundedOncePerKey`, `RefundRetries.RepetitionCatchesUp`). That rests on the
  provider remembering keys and refusing one that comes back with another payment, amount or reason: such a retry is
  never recorded (`RefundRetries.RetryRecordsIff`).
- A payment's status is overwritten without looking at its refunds, when an intent is seen again
  (src/routes/payments.ts:330-332) or a confirmation arrives late (src/jobs/handlers/payments.ts:72-94). The refunded
  total stays right, the status does not (`RefundRuns.StatusesStayRightIff`, `RefundRetries.LostThenRepeated`).
- Two sign-ins at once can leave two open challenges, though the comment in src/auth/native.ts:460-464 says the older
  is dropped. Two responses at once, through two challenges, can then sign in with one recovery code; with one
  challenge at a time they cannot (`SecondFactor.OneOpenChallengePerUser`, `RecoveryCodeWorksOnceIff`,
  `RecoveryCodeWorksOnce`, `OneCodeTwoSignIns`).
- The second factor is lost at the first refresh. `sessionResponse` (src/routes/compat/auth.ts:73-76) issues the
  refresh token without the flag, which then defaults to false (src/auth/native.ts:216-239), though the comment at
  src/routes/compat/auth.ts:304-311 says it must carry forward (`Sessions.FactorIsLost`, exactly when in
  `Sessions.RefreshKeepsFactorIff`). It fails on the safe side: no refresh adds a factor
  (`Sessions.SessionsGoBackToSignIn`).
- A review can accept an application that was never submitted, and an accepted one converts with every required
  document missing (`Checklist.AcceptedUnsubmitted`).
- List cursors carry milliseconds while rows carry microseconds, so rows created within one millisecond can be
  skipped, though never repeated (`Pagination.MillisecondCursorSkips`). The audit log also skips ties
  (`Pagination.AuditTieSkips`). The comment in src/lib/pagination.ts:4-9 promises more; the model follows the code.
- "No online portal exists" cannot be reported: a paper-only jurisdiction has no portal target
  (`Roadmap.NoPortalIsNeverReported`).
- A waived requirement still blocks filing; an unreviewed renewal displaces a valid policy; a copy without expiry
  loses to an expired one (`Compliance.WaivedStillBlocks`, `UnreviewedRenewalBlocks`, `UndatedLosesToExpired`).
- Septic and HOA answers are not stored, so the next sync without them drops their rows (`Checklist.SepticForgotten`).
  Removing a subcontractor does not sync at all, and adding one syncs with an unlocked read, so the checklist can
  disagree with the application (`Checklist.CurrentlyExactIff`, `Checklist.SyncIsCurrentIff` say exactly when).
- The header of src/domain/permitIntake.ts:14 says a Notice of Commencement is required over $2,500; the constant
  in use is 750,000 cents, which the model has.

## Model

| member | source | states |
|---|---|---|
| `JobQueue.Jobs.Enqueue` | src/jobs/queue.ts:57-85 | a request that repeats the key of a queued, running or failed job of its queue adds nothing and answers null, one that breaks a table constraint throws; otherwise exactly one row is added under the new id, untried, with what was asked for and the defaults for the rest |
| `JobQueue.Jobs.Select` | src/jobs/queue.ts:92-101 | the claim takes only due, unlocked rows of the queue, as many as there are up to the limit, and none it leaves goes before one it takes |
| `JobQueue.Jobs.ClaimJobs` | src/jobs/queue.ts:88-116 | the chosen rows, queued or failed and due, and no others, become running for this worker with one more attempt; a due unlocked row is left only if the limit is reached by rows it does not go before |
| `JobQueue.Jobs.CompleteJob` | src/jobs/queue.ts:132-161 | kept exactly if the row runs, for that worker if one is named: then it has succeeded, has a finish time and no owner, and no other row changes; not kept changes nothing |
| `JobQueue.Jobs.FailJob` | src/jobs/queue.ts:176-219 | the row is rewritten by id alone, dead or waiting, from what the caller remembers of the job; the call throws exactly when the unique index refuses the row |
| `JobQueue.Jobs.ReapStuckJobs` | src/jobs/queue.ts:228-252 | exactly each row running for longer than its timeout loses its owner and waits a minute, or is dead if its attempts are used up; the answer counts the changed rows |
| `JobQueue.Jobs.RetryDeadJob` | src/jobs/queue.ts:288-307 | exactly a dead row whose key is free goes back to the queue, to run now, with no attempt and no error on it and every other column as before; no other row changes; a taken key makes the call throw |
| `JobQueue.RetryDelayBounds` | src/jobs/queue.ts:164-167 | jitter at most halves the back-off and never lengthens it; every wait is between 15 seconds and an hour; the back-off never shrinks with attempts |
| `JobQueue.BackoffDoubles` | src/jobs/queue.ts:164-165 | the back-off is 30 seconds up to the first attempt and doubles with each one after, up to an hour |
| `JobQueue.RetryDelayIs` | src/jobs/queue.ts:164-167 | the wait is the whole seconds of the back-off times a factor the draw puts between a half and one |
| `JobRuns.RunKeepsInvariants` | src/jobs/queue.ts:57-307 | in every interleaving a row names an owner and a lock time exactly while it runs, has a finish time exactly once it is over, and live keys are unique |
| `JobRuns.RefusedFailureIsLate` | src/jobs/queue.ts:176-202 | the unique index refuses a failure report exactly when it is a retry of a row already over whose key another live job has taken; a report about a live row always goes through |
| `JobRuns.RefusedFailureRun` | src/jobs/queue.ts:176-202 | such a report happens: a displaced worker reports after its job was finished by another and queued again under the same key |
| `JobRuns.RunningRowIsUntouchedOrReleased` | src/jobs/queue.ts:88-252 | while a row runs, each step of anyone either leaves it exactly as it was or releases it; no claim takes it |
| `JobRuns.OnlyAClaimStartsARow` | src/jobs/queue.ts:88-116 | a row starts running only by a claim that chose it, for that claimer, at the cost of one attempt |
| `JobRuns.RunningRowHasALease` | src/jobs/queue.ts:88-116 | every running row goes back to one claim by its owner and is still what that claim wrote |
| `JobRuns.CompletionCountsIffLeaseHeld` | src/jobs/queue.ts:118-161 | over any run, a worker's completion changes the table exactly when the row has run for it without a break since a claim of its own |
| `JobRuns.ClaimsDoNotOverlap` | src/jobs/queue.ts:88-116 | between two claims of one row there is a moment when it did not run |
| `JobRuns.DisplacedWorkerCannotOverwrite` | src/jobs/queue.ts:118-161 | once another worker was handed the row, a worker that did not claim it again since can no longer complete it |
| `JobRuns.RetriesWait` | src/jobs/queue.ts:88-101 | a failed row is not claimed before its delay, nor a reaped one within a minute, unless something else touched it first |
| `JobRuns.FailKeepsBudgetIff` | src/jobs/queue.ts:176-202 | recording a failure keeps attempts within budget exactly when it is refused, gives up, or the stored row has an attempt left |
| `JobRuns.AttemptsStayInBudget` | src/jobs/queue.ts:92-113 | if every failure comes from the attempt the row is on, attempts never exceed max_attempts, and a claimable row has one left |
| `JobRuns.EveryTouchDescends` | src/jobs/queue.ts:92-252 | apart from manual retries every change of a row lowers a rank made of status and attempts left |
| `JobRuns.JobsRunOut` | src/jobs/queue.ts:92-301 | between manual retries claims are bounded by the attempts left and changes by the rank, and a row that used all its attempts is running, succeeded or dead |
| `JobRuns.RevivedHasFullBudget` | src/jobs/queue.ts:288-301 | a manual retry leaves an untried row with the rank of a new one; up to the next one its attempts are the claims since, at most max_attempts |
| `JobRuns.LateFailureRun` | src/jobs/queue.ts:176-202 | a concrete run: a report of an earlier attempt releases a row somebody is running, and a job allowed two attempts is claimed three times |
| `JobRuns.StaleFailureBreaksTheBudget` | src/jobs/queue.ts:176-202 | without an ownership guard on failures, a worker that was displaced breaks the budget of the row's present owner |
| `JobRuns.OwnershipIsNotEnough` | src/jobs/queue.ts:176-202 | a guard on the worker id would not be enough: the owner itself can report an earlier attempt late |
| `JobRuns.LateReportIsHarmlessIff` | src/jobs/queue.ts:176-202 | a failure report about a running row always ends the execution; that is somebody else's execution exactly unless the reporter has held the row without a break since a claim of its own |
| `JobRuns.FinishedRowChangesIff` | src/jobs/queue.ts:176-301 | a row that is over changes exactly by a manual retry or by a failure report about it that the index lets through, and is open again exactly if that was a retry or does not give up |
| `JobRuns.FinishedJobRunsAgain` | src/jobs/queue.ts:176-202 | it happens within the attempt budget: a displaced worker reports its failure after the job succeeded, and the job runs once more |
| `Scheduler.Ticker.TickScheduler` | src/jobs/runner.ts:119-170 | the due schedules that no other worker has locked, up to twenty, are next due one interval from now, and each has a new untried job on its queue to run at once, keyed by the schedule unless it is the reaper, or a live job with that key already; nothing else changes |
| `Scheduler.OneLiveJobPerSchedule` | src/jobs/runner.ts:146-164 | in every run and at any time, of all the jobs that ticks queued for one schedule that is not exempt, at most one is live |
| `Scheduler.StuckRowCanBeFreed` | src/jobs/runner.ts:140-258 | from every reachable state and any moment on, a new worker with a single slot frees any running row, a killed reaper's included: it ticks, polls the queues in order, runs and reports one due job after the other, and comes to a reaper |
| `Scheduler.CorpseIsForever` | src/jobs/runner.ts:146-157 | without the exemption, a reaper row left by a dead worker survives every continuation |
| `Scheduler.WithoutExemptionOneCrashIsFinal` | src/jobs/runner.ts:146-157 | without it there is a reachable state, one tick, claim and kill away, with a stuck row that nothing ever frees |
| `Runner.ProcessJob` | src/jobs/runner.ts:82-110 | one report reaches the queue per job, or none when storing it fails: success for the worker that holds the row, dead for a permanent failure or the last attempt, otherwise failed and due after the delay; no other row changes |
| `Runner.ReportSettlesTheRow` | src/jobs/runner.ts:82-110 | a report for the attempt the row is on ends it as succeeded, dead or failed, as the outcome and the attempts say; the row is left to the reaper exactly when no report could be stored |
| `Runner.Worker.AskForJobs` | src/jobs/runner.ts:233-252 | a turn of the loop claims exactly when not stopping and below the cap, and asks for exactly the free slots |
| `Runner.Worker.StartJobs` | src/jobs/runner.ts:252-258 | every job the claim returned counts at once |
| `Runner.WithinConcurrency` | src/jobs/runner.ts:233-258 | jobs in flight plus those a pending claim may return never exceed the concurrency |
| `Runner.StopLetsOneClaimThrough` | src/jobs/runner.ts:283-296 | after a stop no claim is made, and one already in the air starts at most the jobs it asked for |
| `Runner.StartsAfterStopIff` | src/jobs/runner.ts:233-296 | a stopped worker can still start a job exactly when a claim for at least one is in the air |
| `Runner.StartsAfterStop` | src/jobs/runner.ts:243-296 | it happens, from the first claim on: ask, stop, and the answer starts a job in every slot |
| `Runner.HandlersCanPileUp` | src/jobs/runner.ts:66-80 | the cap does not bound handlers: timed-out ones run on, so with one slot any number can run at once |
| `Runner.HandlersStayWithinIff` | src/jobs/runner.ts:66-80 | in every reachable state, while no further handler times out, the handlers running are bound to stay within the concurrency exactly when none was abandoned before, or the worker is stopped and all it holds and asked for fits |
| `Transactions.Database.WithServiceContext` | src/db/tenant.ts:163-189 | the callback's state commits exactly when it returns; when it throws the state before stays |
| `Sessions.SessionTx.Consume` | src/auth/native.ts:276-342 | inside the transaction: a grant exactly for an acceptable token, with the user, version and second factor stored with it |
| `Sessions.SessionStore.ConsumeRefreshToken` | src/auth/native.ts:271-349 | a token is exchanged exactly when it is acceptable, for its own user, version and second factor; late reuse signs the user out everywhere, an unexpired token is revoked, and both are committed also when the call is refused |
| `Sessions.SessionStore.IssueRefreshToken` | src/auth/native.ts:216-239 | exactly one token is added, unrevoked, with the flag given or false; or nothing changes |
| `Sessions.SessionStore.SessionResponse` | src/routes/compat/auth.ts:47-81 | the access token has the flag of the session, the refresh token issued with it never has |
| `Sessions.SessionStore.RevokeAllSessions` | src/auth/native.ts:365-380 | the user's version rises by one and every unrevoked token is revoked, in one transaction; nobody else is touched |
| `Sessions.VersionsNeverRunAhead` | src/auth/native.ts:216-239 | in any run no stored token, and no user row a request still holds, is ahead of the user's version |
| `Sessions.VersionsOnlyGrow` | src/auth/native.ts:302-317 | a user's version never goes down |
| `Sessions.EndedSessionsStayEnded` | src/auth/native.ts:302-342 | after sessions were ended by sign-out or by late reuse, no token with an earlier version is accepted again, whenever it is inserted or presented |
| `Sessions.NothingInFlightSurvives` | src/auth/native.ts:216-239 | everything stored or in hand at that moment carries such an earlier version |
| `Sessions.SessionsGoBackToSignIn` | src/auth/native.ts:216-349 | over any run every session, held or stored, goes back to a sign-in of its user with that version, and one with a second factor to a sign-in that presented it |
| `Sessions.RefreshKeepsFactorIff` | src/auth/native.ts:216-349 | the session a token is exchanged for has the second factor exactly if the one it was issued for had it and passed it on |
| `Sessions.RefreshForgetsFactor` | src/routes/compat/auth.ts:47-81 | issued the way the routes issue them, no refresh token ever stands for a second factor |
| `Sessions.FactorIsLost` | src/routes/compat/auth.ts:291-312 | a concrete run: a sign-in with a second factor is without it after its first refresh |
| `Sessions.RevocationWrittenOnce` | src/auth/native.ts:323-327 | a revocation time, once written, never changes while the token exists |
| `Sessions.GraceNeverSlides` | src/auth/native.ts:241-258 | however often it is replayed, a revoked token is accepted only within sixty seconds of its first revocation |
| `Sessions.AcceptanceStartsTheWindow` | src/auth/native.ts:321-327 | an acceptance starts that minute, so later ones fall within it |
| `Sessions.LateReuseIsRefusedButCommits` | src/auth/native.ts:297-317 | a presentation after the window is refused, yet leaves the user with no acceptable token |
| `Sessions.ThrowingInsideWouldUndoIt` | src/auth/native.ts:344-348 | thrown inside the transaction, the same refusal would leave every acceptable token acceptable |
| `SecondFactor.ChallengeTx.Consume` | src/auth/native.ts:492-567 | inside the transaction: the challenge's own user for a right code in time; the challenge used up, one attempt more, or nothing changed |
| `SecondFactor.ChallengeStore.IssueMfaChallenge` | src/auth/native.ts:451-479 | issuing drops exactly the user's open challenges and adds one for five minutes with no attempts used |
| `SecondFactor.ChallengeStore.ConsumeMfaChallenge` | src/auth/native.ts:488-573 | exactly a right code, in time and with fewer than six wrong ones before, signs in the user of the challenge; everybody else gets the one generic refusal; what the callback wrote is committed in both cases |
| `SecondFactor.SignsInIff` | src/auth/native.ts:504-560 | sign-in happens exactly for an open challenge with attempts left, an account read in standing with a factor, and a code right for it |
| `SecondFactor.OwnerSignsIn` | src/auth/native.ts:532-560 | whoever is signed in owns the challenge, whichever kind of code it was |
| `SecondFactor.SignsInWhoItWasIssuedTo` | src/auth/native.ts:451-560 | over any run of overlapping transactions, whoever signs in through a ticket is a user it was issued to |
| `SecondFactor.WrongGuessIsCounted` | src/auth/native.ts:562-571 | a wrong guess fails and adds exactly one to the stored attempts |
| `SecondFactor.ChallengeIsBounded` | src/auth/native.ts:488-573 | over any run, however issues and responses overlap, a challenge compares no more wrong codes than it has attempts left and signs in at most once |
| `SecondFactor.SixGuessesOneSignIn` | src/auth/native.ts:443-514 | from its issue on: at most six wrong codes and one sign-in |
| `SecondFactor.UndisturbedSteps` | src/auth/native.ts:451-573 | issues and responses that overlap nothing are the steps whose delete saw all that is open and whose read is current |
| `SecondFactor.StepKeepsOneOpenIff` | src/auth/native.ts:459-474 | each user keeps to one unconsumed challenge exactly unless an issue commits whose delete missed one that is open by then |
| `SecondFactor.OneOpenChallengePerUser` | src/auth/native.ts:459-474 | over any run of overlapping transactions users have one open challenge at most, all along, exactly if no issue missed one |
| `SecondFactor.RecoveryCodeWorksOnceIff` | src/auth/native.ts:516-560 | between enrolments a recovery code signs in exactly as often as it goes off file, so at most once, if and only if no response used it that had read it before another took it off |
| `SecondFactor.RecoveryCodeWorksOnce` | src/auth/native.ts:495-560 | at most once, and never if it is not on file, however responses overlap, given the lock on the challenge, as long as no user has two open challenges meanwhile |
| `SecondFactor.OneCodeTwoSignIns` | src/auth/native.ts:459-560 | otherwise it fails: two overlapping issues leave two challenges open, and two overlapping responses sign in with one code |
| `SecondFactor.ThrowingInsideWouldNeverCount` | src/auth/native.ts:562-571 | thrown inside the transaction, any number of wrong guesses would leave the challenge untouched |
| `Base32.WordOperators` | src/auth/totp.ts:36-57 | on 32-bit words the constant shifts, masks and ors of the loops are the multiplications, remainders and divisions of the model |
| `Base32.WordShifts` | src/auth/totp.ts:36-60 | on 32-bit words a shift by any number of places goes one place at a time, as the model defines it |
| `Base32.Base32Encode` | src/auth/totp.ts:30-45 | the text spells the bits of the bytes cut in fives, the last group filled up with zeros, although the accumulator overflows |
| `Base32.Base32Decode` | src/auth/totp.ts:47-64 | the bytes are the bits, cut in eights, of what upper-casing and the pattern leave of the text; a last partial group is dropped |
| `Base32.EncodingIsUnique` | src/auth/totp.ts:30-45 | one encoding per byte string, of ceil(8n/5) characters (section 6 of RFC 4648) |
| `Base32.DecodingIsUnique` | src/auth/totp.ts:47-64 | one decoding per text, however it is upper-cased |
| `Base32.RoundTrip` | src/auth/totp.ts:30-64 | decoding an encoding gives the bytes back, for any number of bytes and any upper-casing that keeps the letters of the alphabet |
| `Base32.ReencodesIff` | src/auth/totp.ts:30-64 | a text comes back unchanged exactly when it is the encoding of something |
| `Base32.EncodeThenDecode` | src/auth/totp.ts:30-64 | the two loops one after the other return their input |
| `Base32.LettersAreTheAlphabet` | src/auth/totp.ts:28 | the letters used are those of the alphabet, in order |
| `Base32.LettersKept` | src/auth/totp.ts:48 | cleaning keeps the characters of the alphabet, in order, and no other |
| `Base32.StandardExample` | src/auth/totp.ts:30-45 | "f" is written "MY", as in section 10 of RFC 4648 |
| `Totp.WriteUInt32BE` | src/auth/totp.ts:75-76 | four big-endian bytes are written and nothing else, or the value is out of range and the write throws |
| `Totp.Halves` | src/auth/totp.ts:72-76 | two 32-bit halves are the eight big-endian bytes of the counter |
| `Totp.DynamicTruncation` | src/auth/totp.ts:78-84 | masks and shifts read the 31-bit number of section 5.3 of RFC 4226, at an offset that never leaves the twenty bytes |
| `Totp.StandardExample` | src/auth/totp.ts:78-86 | the example of section 5.4 of RFC 4226: its digest gives 0x50ef7f19 and the code 872921 |
| `Totp.PaddedDecimal` | src/auth/totp.ts:86 | printing and padding gives the decimal digits of the number |
| `Totp.Hotp` | src/auth/totp.ts:71-87 | the code is the six digits of the truncated digest of the eight-byte counter; a counter outside 64 bits throws |
| `Totp.VerifyTotp` | src/auth/totp.ts:96-120 | true exactly if, for the one decoding of the secret, the six digits supplied are the code of the current step or one either side |
| `Totp.DigitsKept` | src/auth/totp.ts:101 | cleaning a supplied code keeps its digits, in order, and nothing else |
| `Totp.CodesAreSixDigits` | src/auth/totp.ts:86 | every code is six decimal digits |
| `Totp.CollisionIff` | src/auth/totp.ts:71-87 | two counters never send the same message, and their codes agree exactly when the truncated digests agree modulo a million |
| `Totp.ThrowsIff` | src/auth/totp.ts:107-112 | for six digits and a non-empty secret the check throws exactly before the first full step after the epoch, or at the end of the 64-bit counter |
| `Totp.AcceptedIff` | src/auth/totp.ts:107-119 | a code of one time is accepted at another exactly when the steps are at most one apart, or by a collision |
| `Totp.AcceptedWithinThirtySeconds` | src/auth/totp.ts:17-26 | a code is accepted at every time within thirty seconds |
| `Totp.RefusedAfterAMinute` | src/auth/totp.ts:17-26 | a minute or more away it is accepted only by a collision with another counter |
| `Idempotency.Tx.WithIdempotency` | src/lib/idempotency.ts:35-127 | without a key the operation just runs; a key over 255 characters is refused; a used key replays the stored response to the same body and refuses another; a new key runs the operation and leaves one row, completed with the response or marked failed, for a day |
| `Idempotency.Handle` | src/db/tenant.ts:77-113 | the request commits exactly when nothing was thrown: its operation and its row together; a replay or a refusal changes nothing |
| `Idempotency.SecondRequest` | src/lib/idempotency.ts:79-126 | after a success the second request under a key replays the response or is refused for its body and changes nothing; after a failure nothing was committed |
| `Idempotency.RunKeepsInvariants` | src/lib/idempotency.ts:53-120 | in every interleaving of statements committed rows are completed ones, each backed by a committed execution, and a slot has one holder |
| `Idempotency.RowStaysAsWritten` | src/lib/idempotency.ts:53-60 | until its retention time a committed row never changes |
| `Idempotency.AtMostOneCommits` | src/lib/idempotency.ts:53-112 | within the retention time at most one execution under a company, endpoint and key commits |
| `Idempotency.LaterRequestsReplay` | src/lib/idempotency.ts:79-96 | every later answer under that key is that response, or the refusal of a different body |
| `Idempotency.LoserFindsTheRow` | src/lib/idempotency.ts:73-77 | the vanished-row conflict needs a cleanup past the retention time in between |
| `Idempotency.NeverStillInFlight` | src/lib/idempotency.ts:95-97 | the "still being processed" conflict is never answered, because the insert has already waited |
| `Idempotency.FailureFreesTheKey` | src/lib/idempotency.ts:113-126 | a failed or disconnected holder commits nothing, and whoever waits for the key then claims it |
| `Idempotency.StepsAreSerial` | src/lib/idempotency.ts:53-112 | each commit and each answer of the interleaving is the whole transaction run at that instant on the committed state |
| `Refunds.AmountDue` | src/routes/payments.ts:300-311 | a payment is started exactly for an open invoice that owes something, for exactly what it owes |
| `Refunds.Books.CreateIntent` | src/routes/payments.ts:300-343 | the payment has the status of the intent; a new one is the company's, over the amount due, with no refund; a known one keeps everything else; or the request is refused and nothing changes |
| `Refunds.Books.ApplyPaymentIntent` | src/jobs/handlers/payments.ts:52-125 | a payment that succeeded stays as it is; another takes the status of the intent; an unknown one is recorded for the company named, and without one the handler throws |
| `Refunds.Books.RefundPayment` | src/routes/payments.ts:420-489 | a refused or failed refund changes nothing; a granted one, of the company's own paid payment and within what is left, is recorded with the provider's answer, added to the payment, and sets its status |
| `Refunds.TruthinessIsSafeIff` | src/services/stripe.ts:150-153 | for an unrefunded payment the truthiness test never hides an amount exactly when the payment is positive |
| `Refunds.GrantedIff` | src/routes/payments.ts:420-451 | a refund is granted exactly when the payment is the company's own and refundable and the amount asked for is positive and still there |
| `Refunds.SecondRefundReplays` | src/routes/payments.ts:407-489 | of two refunds asked for under one key the ledger records the first, and the second replays its answer or is refused for its different body |
| `RefundRuns.RefundedOncePerKey` | src/routes/payments.ts:407-489 | whatever is retried, lost after the provider call, late or repeated, and after the key rows are cleaned up: under one key the provider moves money once, at most one refund is recorded, of a payment of the company that asked, and it is what was moved |
| `RefundRuns.RefundsAlwaysBalance` | src/routes/payments.ts:441-489 | over any run the refunded amount of a payment is the sum of its refunds, at most what was moved, at most its amount, equal exactly when every move is recorded; its status is wrong exactly if it was refunded from and the status does not say so |
| `RefundRuns.StatusesStayRightIff` | src/routes/payments.ts:324-333 | while the statuses are right, a step breaks one exactly when an intent or a confirmation overwrites that of a refunded payment |
| `RefundRuns.StatusesAreRight` | src/routes/payments.ts:477-489 | without such an overwrite every status says none, some or all |
| `RefundRuns.NothingUnpaidIsRefunded` | src/routes/payments.ts:300-489 | over any run a refund is granted, moved or recorded only of a payment that an intent or a confirmation reported as succeeded before |
| `RefundRuns.AmountIsExplicitIff` | src/services/stripe.ts:144-158 | the provider is told a positive amount exactly when one was asked for or something is left, always so while the status is right; it moves nothing when told none |
| `RefundRetries.RetryRecordsIff` | src/routes/payments.ts:453-489 | money was moved and the record lost: a request under that key moves nothing more, and records the move exactly if it names that payment and the reason that was sent and comes to that amount |
| `RefundRetries.RoomForRetryIff` | src/routes/payments.ts:434-451 | the amount that was moved is still granted exactly while the payment can be refunded at all |
| `RefundRetries.RepetitionCatchesUp` | src/routes/payments.ts:407-489 | the lost request repeated as it was, with or without an amount, records the move as soon as the payment can be refunded |
| `RefundRetries.LostThenRepeated` | src/routes/payments.ts:407-489 | a concrete run: money moved without a record, recorded by the repetition, and hidden by a confirmation delivered again |
| `Migrations.Deploy.Run` | src/db/migrate.ts:107-166 | refused exactly when an applied file was edited; otherwise exactly the pending files before the first broken one are applied, in order |
| `Migrations.PendingAre` | src/db/migrate.ts:125 | the pending migrations are the files without a record, in the order of the directory |
| `Migrations.AppliedAre` | src/db/migrate.ts:142-163 | applying some runs the statements of each once, in order, and records its checksum; no other record changes |
| `Migrations.DeployCompletes` | src/db/migrate.ts:127-163 | from any prefix an undisturbed deploy applies the missing migrations, each once and in order |
| `Migrations.AppliedIsAlwaysAPrefix` | src/db/migrate.ts:107-166 | with any number of deploys failing anywhere, with or without the lock, committed migrations are a prefix of the list, none twice, and the records are exactly those with their checksums |
| `Migrations.LockSerialises` | src/db/migrate.ts:140-163 | the lock adds that one deploy works at a time |
| `Migrations.InsertSucceedsIff` | src/db/migrate.ts:147-161 | a deploy records its next migration exactly when it is the first not yet applied |
| `Migrations.OvertakenDeployNeverCommits` | src/db/migrate.ts:107-141 | a deploy whose snapshot went stale while it waited commits nothing more |
| `Migrations.DeployIsOvertaken` | src/db/migrate.ts:107-161 | it happens, with or without the lock: two snapshots, one deploy applies the migration, the other ends at its record |
| `Pagination.BuildPage` | src/lib/pagination.ts:55-77 | a page holds the first `limit` rows, and has a next cursor exactly when there were more |
| `Pagination.PageIsServed` | src/routes/projects.ts:64-91 | a page lists the newest rows below its cursor, all of them if it is the last |
| `Pagination.PageRows` | src/routes/projects.ts:76-87 | in words: newest first, ids breaking ties, all strictly below the cursor, and the last page leaves nothing below it out |
| `Pagination.CursorIs` | src/lib/pagination.ts:68-75 | a cursor names the last row by its id and by its time cut to the precision |
| `Pagination.NeverTwice` | src/lib/pagination.ts:1-13 | whatever changes between pages, rows come in strictly descending order and none twice |
| `Pagination.ListedIffNotSkipped` | src/routes/projects.ts:76-79 | a row there throughout is listed exactly when no page boundary skips it |
| `Pagination.SkippedIff` | src/lib/pagination.ts:68-75 | what a boundary skips: rows in the same cursor unit as its last row, finer or with a greater id; or, comparing time alone, any tie |
| `Pagination.CompleteAtFullPrecision` | src/routes/projects.ts:64-91 | with cursors of full precision every row there throughout is listed exactly once |
| `Pagination.AuditCompleteIfDistinct` | src/routes/admin.ts:47-67 | the audit log lists a row exactly once if no other entry has its timestamp |
| `Pagination.CompleteIff` | src/lib/pagination.ts:15-77 | the walks of a fixed table are complete, for every page size from 1 to 100, exactly when no row can be skipped below another |
| `Pagination.SkippingHappens` | src/lib/pagination.ts:15-77 | wherever a row can be skipped below another, the walk with one row a page never lists one of the two |
| `Pagination.WalkIsBounded` | src/lib/pagination.ts:55-77 | a walk of a fixed table has at most one page more than full pages fit |
| `Pagination.MillisecondCursorSkips` | src/lib/pagination.ts:68-75 | two projects created within one millisecond: with one row a page the older is never listed |
| `Pagination.AuditTieSkips` | src/routes/admin.ts:55-57 | two audit entries with one timestamp: with one row a page the second is never listed |
| `Roadmap.AssessReadiness` | src/shared/integration.ts:100-242 | from the columns of the jurisdiction: the pathway today and the one in reach, each blocker that applies, in order, the weeks they cost, the share, the phase, and the priority of these |
| `Roadmap.EachBlockerOnce` | src/shared/integration.ts:112-198 | each blocker that applies is listed exactly once |
| `Roadmap.NoPortalIsNeverReported` | src/shared/integration.ts:174-186 | the "no online portal exists" blocker can never be reported |
| `Roadmap.OursAloneIff` | src/shared/integration.ts:291-298 | all blockers are ours exactly when no outside gate stands before the API; there is one exactly in the listed cases |
| `Roadmap.PriorityIsMonotone` | src/shared/integration.ts:200-207 | priority lies in 0..100, never falls with more volume, more lift or fewer weeks, and is 0 without lift or volume |
| `Roadmap.PriorityIs` | src/shared/integration.ts:200-207 | the priority is 3600 times share and lift over twelve and the weeks, rounded, and at most 100 |
| `Roadmap.SortedIsSorted` | src/shared/integration.ts:272 | sorting permutes the items and puts none before one that should precede it |
| `Roadmap.SortingIsStable` | src/shared/integration.ts:272 | items that are tied stay in the order they came in |
| `Roadmap.BuildRoadmap` | src/shared/integration.ts:257-301 | the summary: items in priority order, on each pathway today and at target the share of exactly the items on it, the 80% count, the first ten quick wins |
| `Roadmap.QuickWinsAre` | src/shared/integration.ts:291-299 | the quick wins are, in order, exactly the items behind some filings that have a blocker and none of the vendor or the agency |
| `Roadmap.VolumeOfIs` | src/shared/integration.ts:262-270 | a jurisdiction is assessed with its entry in the volume table, or with none |
| `Roadmap.CountFor80` | src/shared/integration.ts:281-289 | the greedy count is the least number of jurisdictions, over all choices, that reaches 80% |
| `Roadmap.GreedyIsLeast` | src/shared/integration.ts:281-289 | no smaller set reaches 0.8; some set of that size does, or all are counted |
| `Roadmap.CoveragesAgree` | src/shared/integration.ts:273-279 | both coverages add up to the share of all items |
| `Roadmap.CoverageIsTheListedPart` | src/shared/integration.ts:262-279 | that total is the part of the volume filed in listed jurisdictions: at most 1, and 1 exactly when all of it was |
| `Portal.Node.RollUp` | src/shared/portal.ts:130-134 | in place, every badge and flag below becomes that of the rolled tree, and nothing else changes |
| `Portal.GroupByPermit` | src/shared/portal.ts:143-155 | the maps hold each permit's documents in order, and the company's |
| `Portal.BuildFolderTree` | src/shared/portal.ts:143-260 | the tree of objects built and rolled up looks like the tree the rows describe |
| `Portal.FiledExactlyOnce` | src/shared/portal.ts:143-260 | every document with a shelf is filed in exactly one folder, every other document and id in none |
| `Portal.RolledIsSettled` | src/shared/portal.ts:130-134 | in the whole tree each badge is the number of documents below it and each flag says one is raised below |
| `Portal.RootBadge` | src/shared/portal.ts:250-259 | the badge at the top is the number of documents that have a shelf; the flag says a gap or a signature is open |
| `Portal.FindsIff` | src/shared/portal.ts:262-269 | a folder is found exactly if some folder has that path, and it has it |
| `Portal.TrailLeadsToFind` | src/shared/portal.ts:272-279 | the trail is empty exactly when nothing is found, and otherwise a parent-child chain from the root to what is found |
| `Portal.FindRolled` | src/shared/portal.ts:130-269 | rolling up changes neither what is where nor what lies in it |
| `Portal.FoundOnItsShelf` | src/shared/portal.ts:208-240 | at the path of a shown permit and the name of a section lie exactly the documents of that permit and category, in the order of the rows, with their number on the badge |
| `Portal.CompanyFoundOnItsShelf` | src/shared/portal.ts:161-199 | the same for the company's three shelves; the insurance shelf is flagged exactly for open gaps, the agreements shelf exactly for pending signatures |
| `Calendar.TomorrowIsNext` | src/shared/calendar.ts:64-73 | consecutive dates have consecutive day numbers |
| `Calendar.DaysBefore` | src/shared/calendar.ts:64-73 | the days before a month in closed form, and the epoch is day zero |
| `Calendar.DaysCount` | src/shared/calendar.ts:92-100 | the days from an instant to a date are the times one has to go to the next day |
| `Calendar.EarlierIff` | src/shared/calendar.ts:64-73 | dates compare as their day numbers do |
| `Calendar.PastIff` | src/shared/calendar.ts:113-119 | a deadline is past exactly when the Florida clock shows a later date, and zero days away exactly on its day |
| `Calendar.PastStaysPast` | src/shared/calendar.ts:113-119 | what is past stays past |
| `Compliance.CurrentIff` | src/shared/compliance.ts:124-144 | an item is current exactly when nobody decided against it and its day, if it has one, is not past |
| `Compliance.LaterDay` | src/shared/compliance.ts:174-181 | of two dated copies the later day wins; undated and unreadable ones count as dated to the epoch |
| `Compliance.KeepLatest` | src/shared/compliance.ts:174-181 | the copy kept of each kind is the latest-expiring, the first of equals |
| `Compliance.AssessCompliance` | src/shared/compliance.ts:169-276 | the gaps in the order of the policy: for each required kind none if it is met for more than thirty days, a warning with the days left if it is met for less, or else a gap that blocks as the policy says, with the status the papers show; the clamped meter and the soonest upcoming expiry |
| `Compliance.ReportIs` | src/shared/compliance.ts:190-247 | the same for one kind, from the papers alone |
| `Compliance.ClearedIffNoBlockingGap` | src/shared/compliance.ts:190-247 | no blocking gap is reported exactly when every required blocking kind is met |
| `Compliance.MetIff` | src/shared/compliance.ts:183-227 | a kind is met exactly by a current exemption in place of workers' comp, or by a latest copy that is accepted, not past, and not known to cover too little |
| `Compliance.ClearedEarlier` | src/shared/compliance.ts:169-276 | for the same papers, cleared later implies cleared earlier |
| `Compliance.MeterInRange` | src/shared/compliance.ts:249-260 | the meter lies in 0..100 before the clamp, and is 100 with everything met |
| `Compliance.MeterIsShare` | src/shared/compliance.ts:249-260 | the meter is the rounded share of the requirements that are met |
| `Compliance.NextExpiry` | src/shared/compliance.ts:262-268 | the next expiry is the least number of days among the kept copies not past, and null exactly when there is none |
| `Compliance.WaivedStillBlocks` | src/shared/compliance.ts:213-247 | a waived item does not meet its requirement |
| `Compliance.UnreviewedRenewalBlocks` | src/shared/compliance.ts:174-181 | a later-expiring upload awaiting review displaces the copy on file and un-clears the contractor |
| `Compliance.UndatedLosesToExpired` | src/shared/compliance.ts:178-180 | a copy without an expiry loses to any dated copy, even an expired one |
| `Intake.RequiredDocumentsFor` | src/domain/permitIntake.ts:183-283 | the list holds each document the facts demand, once |
| `Intake.DemandedIff` | src/domain/permitIntake.ts:183-283 | the rules taken one by one and the demand of each document say the same |
| `Intake.InFloodZoneIff` | src/domain/permitIntake.ts:248-249 | every zone that is stored is a flood zone but a lone x, of either case, among blanks |
| `Intake.TypesAre` | src/domain/permitIntake.ts:134-154 | which permit types count as wind-borne, structural and trade work |
| `Intake.AssessReadiness` | src/domain/permitIntake.ts:299-370 | submittable exactly when the form is complete and no required document is missing; what the form lacks comes first, then each missing document, which blocks |
| `Intake.FormIssuesAre` | src/domain/permitIntake.ts:316-355 | field by field, what is raised and whether it blocks or warns |
| `Checklist.Application.SyncChecklist` | src/routes/permitApplications.ts:137-176 | the loop of upserts and the delete leave what the facts and the provided documents determine |
| `Checklist.Application.Start` | src/routes/permitApplications.ts:343-396 | a new application is a draft with the documents its facts demand, all missing |
| `Checklist.FactsCarried` | src/routes/permitApplications.ts:142-154 | the rules see each stored column under its own name |
| `Checklist.SyncIsExact` | src/routes/permitApplications.ts:129-176 | right after a sync the missing rows are the demanded documents not provided; nothing provided changes; a second sync changes nothing |
| `Checklist.SyncedIsReconciled` | src/routes/permitApplications.ts:137-176 | the order of the rules does not matter |
| `Checklist.Application.Edit` | src/routes/permitApplications.ts:417-526 | a closed application cannot be edited; an edit syncs with what it carries |
| `Checklist.Application.AddSubcontractor` | src/routes/permitApplications.ts:532-592 | a subcontractor needs coverage or an exemption; adding one syncs without the septic and HOA answers |
| `Checklist.Application.AttachDocument` | src/routes/permitApplications.ts:650-658 | the document is provided in its row, which keeps whether it is required, or is added as required; no other row and nothing else changes |
| `Checklist.Application.Submit` | src/routes/permitApplications.ts:679-712 | submitted exactly from draft or info-requested, with a complete form and no required row missing |
| `Checklist.Application.Review` | src/routes/permitApplications.ts:760-810 | a review sets its decision, whatever it is, unless the application is converted or withdrawn or the reason or the notes it needs are missing; nothing else changes |
| `Checklist.Application.Convert` | src/routes/permitApplications.ts:856-936 | exactly an accepted application is converted, and makes one permit |
| `Checklist.ChecklistIsExact` | src/routes/permitApplications.ts:137-176 | at every point of any run the missing rows are what the last sync demanded minus what is provided by now |
| `Checklist.ProvidedIsNeverLost` | src/routes/permitApplications.ts:129-136 | what was provided is never lost, and changes only by attaching that document again |
| `Checklist.SubmitsIff` | src/routes/permitApplications.ts:694-706 | a submission goes through exactly when everything demanded at the last sync is provided and the form is complete |
| `Checklist.AtMostOnePermit` | src/routes/permitApplications.ts:850-885 | an application makes at most one permit and stays converted |
| `Checklist.MakesPermitIff` | src/routes/permitApplications.ts:850-936 | over any run a permit is made exactly by a conversion whose application was last reviewed as accepted |
| `Checklist.AcceptedUnsubmitted` | src/routes/permitApplications.ts:788-884 | it need not have been submitted: a draft with every demanded document missing is accepted and converted |
| `Checklist.SepticRowStaysIff` | src/routes/permitApplications.ts:517-586 | a septic or HOA row survives a sync exactly if that request or the jurisdiction asks again, or it was provided |
| `Checklist.SepticForgotten` | src/routes/permitApplications.ts:582-586 | naming a subcontractor takes a demanded septic approval off the checklist |
| `Checklist.AffidavitLingers` | src/routes/permitApplications.ts:594-619 | removing the last subcontractor leaves its affidavit demanded until the next edit |
| `Checklist.RemovalKeepsExactIff` | src/routes/permitApplications.ts:594-619 | removing a subcontractor leaves the checklist right exactly if another is left, the affidavit is demanded anyway, or it was provided |
| `Checklist.CurrentlyExactIff` | src/routes/permitApplications.ts:417-619 | in every run without stale reads: the missing rows are what the current facts demand and nobody provided, exactly unless the last subcontractor was removed since the last sync and the affidavit is neither demanded otherwise nor provided |
| `Checklist.ExactForIff` | src/routes/permitApplications.ts:137-176 | a checklist synced with one set of facts suits another exactly when both demand the same of what is unprovided |
| `Checklist.SyncIsCurrentIff` | src/routes/permitApplications.ts:517-586 | a sync with what its request read suits the facts as they are exactly when both demand the same of what is unprovided |
| `Checklist.StaleReadDropsRow` | src/routes/permitApplications.ts:557-586 | a subcontractor added by a request that read the application before an edit takes a document off that the edit had put on |

## Left out

- HTTP routing, roles, rate limits, audit writes, notifications, heartbeats and logging.
- SQL text and triggers; of the constraints only the unique indexes, primary keys and checks that the modelled code runs into.
- Stripe, storage, bcrypt, JWT and HMAC internals: parameters or left out. HMAC is any function with a twenty-byte result.
- Hash collisions of tokens, request bodies and migration checksums: two texts with one hash count as the same text.
- Job payloads, results and error texts, token metadata, blocker labels and action sentences, checklist notes.
- Statement-by-statement interleaving inside the session transactions: each is one step. In the second factor the delete of an issue and the account read of a response may come earlier than the commit; an enrolment is one step.
- SecondFactor.RecoveryCodeWorksOnce: assumes one open challenge at a time while responses overlap, because the code does not ensure it; SecondFactor.RecoveryCodeWorksOnceIff gives the exact condition.
- The enqueues of one scheduler tick are one step, possibly cut short by a crash; other events do not fall between them.
- Floating-point rounding: shares, priorities, meters, jitter and time steps are exact numbers.
- Cursor text (JSON in base64url), malformed cursors, and the filters of the list queries: a table holds the rows that match.
- The Unicode rules of upper-casing in base32 decoding: the upper-casing is a parameter, of which the round trips need only that it leaves the letters of the alphabet alone.
- Dates that roll over (30 February), years below 100 and expiry texts with blanks around them: stored dates are real dates, instants, or unreadable.
- Folder names, hints and upload settings; paths are lists of segments, so ids with a slash are not covered.
- The refund webhook and reconciliation. The payment provider is modelled from what its calls promise: it keeps a key for good, answers a repeated call with the original result, refuses a key that comes back with other parameters, and never moves more than is left of a charge.
- Row-level security: a payment carries its company and a refund request asks for its own, but an intent seen again is matched by the provider's id alone.
- A refund request and the row locks it takes are one step, but for its provider call, which may arrive later, more than once or never.
- JobRuns.AttemptsStayInBudget: assumes that every failure is reported by the attempt the row is on, because the code does not check it; JobRuns.FailKeepsBudgetIff gives the exact condition.
- JobRuns.JobsRunOut: assumes the same, and counts between manual retries.
- Sessions.RevocationWrittenOnce: while the token row exists; the cleanup of old rows may delete it.
- Totp.RefusedAfterAMinute: up to a collision, which HMAC-SHA-1 does not exclude.
- Idempotency.AtMostOneCommits: within the retention time; after a cleanup the key may be used again.
- Checklist.ChecklistIsExact: about the facts of the last sync, because removing a subcontractor and changing a jurisdiction's extras do not sync; Checklist.CurrentlyExactIff gives the exact condition for the current ones.
- Each request about an application is one step, except that the count of an edit and the read of an added subcontractor may be out of date when it syncs; other overlaps of two syncs are not covered.
- Pricing, billing, mailing, risk and jurisdiction matching: small folds and case splits that would add only easier members. Supervision: its guards sit in triggers that are not part of this model.
