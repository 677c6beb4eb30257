# KnowledgeOS: verified model of the stateful services

A Dafny model of the parts of the KnowledgeOS platform whose correctness is spread over
several operations, and proofs of what holds over every run of them. `dafny verify
dfyconfig.toml` checks the whole project.

The operations are pure state transformers (or, where transactions interleave, state
machines over single statements), and the run-level results are lemmas about them. Where
the service updates rows in place, a class does the same field by field, and each method is
tied by its `ensures` to the transformer that the lemmas are about.

| part of the system | model | results | imperative form |
|---|---|---|---|
| refresh tokens and retention (auth) | `TokenModel` | `TokenFamilies`, `TokenRetention`, `TokenUse`, `TokenRows` | `TokenService` |
| lockout and password reset (auth) | `AccountModel` | `LockoutBound`, `AccountUse` | `AccountService` |
| second factor (auth) | `MfaModel` | `MfaReplay`, `MfaAccept` | `MfaService` |
| spend control (ai) | `BudgetCounter`, `BudgetLimit`, `GenerationLocks`, `Generation` | in the first three, `GenerationBudget`, `GenerationCache`, `GenerationLedger`, `Reporting`, `ReportRows` | `GeneratorService`, `GenerateBatch` |
| read, decide and write back (auth, automation) | `Overlap` | in the same file | |
| ingestion jobs and events (automation) | `JobModel`, `EventModel` | `JobLife`, `JobColumns`, `EventSafety`, `EventFiles` | `JobService` |
| feature flags (admin) | `FlagModel` | `FlagHistory`, `FlagFields` | `FlagService` |
| response cache and routing (gateway) | `GatewayModel` | `GatewaySafety`, `GatewayStore` | `GatewayService` |
| encoders (auth) | `Base64Url`, `KeyEncoding`, `OAuthState` | in the same files | |
| text, slugs, archives, imports (automation) | `Text`, `Slug`, `Archive`, `Imports` | in the same files, `ImportRows` | `Archive.AssertArchiveSafe`, `Imports.Run` |

`Options`, `Arith`, `Strings` and `Sums` hold what several of them share.

## What the proofs found

Some of what the code's comments and documentation promise holds only under a condition.
For each of these a lemma proves the condition to be exact, or, where the text says so, only
the failure is shown.

- Reuse detection and account lockout write their effects and then raise, and the request's
  session dependency rolls a raised request back
  (`packages/core-py/knowledgeos_core/db.py:205-217`). No caller in the repository keeps them
  (`apps/auth/routers/auth.py:154` and `:272`), so as the code stands a replay revokes nothing,
  a wrong password is never counted, and neither mechanism takes effect. Both work exactly when
  the effects are kept; the flag `rollbackOnRaise` of the two configurations tells the cases
  apart: `TokenFamilies.ReplayEndsFamilyExactlyWhenKept`, `LockoutBound.ThrottledExactlyWhenKept`.
- The retention sweep takes revoked tokens before they expire, and tokens whose session row
  it deletes, although its comment asks for past expiry and past the grace window both. It is
  nevertheless harmless to what can be granted, for every retention that is not negative:
  `TokenRetention.SweepsErasableExactly`, `TokenRetention.KeptBeyondExpiryExactly`.
- The spending ceiling is described as a hard stop. With at most k requests in flight, none
  costing more than c, the most that can be spent in a day is known exactly
  (`BudgetLimit.ReachIsExact`), and it is a hard stop only when nothing is admitted, or k * c
  is at most one unit, or, for a user, the platform's ceiling is so much lower that it comes
  first: `BudgetLimit.CeilingHoldsExactly`.
- The unique constraint does not bind the platform's counter row, whose user is null. One
  insert that is not serial leads, by commits alone, to two rows, and then every later check of
  the day fails on its single-row read: `BudgetCounter.SplitCounterFailsEveryCheck`. A request
  past its check by then is counted twice: `BudgetCounter.RacedPlatformRowCountsTwice`.
- The result cache is write-once except when a process is lost between warming Redis and
  committing the row: `GenerationCache.CoherenceBreaksExactlyWhenTorn`.
- Counters and ledger read the date separately, so a call that crosses midnight between them
  puts the books out: `GenerationLedger.BalanceBreaksExactlyWhenSplit`,
  `GenerationLedger.CoverBreaksExactlyWhenUncovered`, and for whole runs
  `GenerationLedger.BooksAreKeptExactly`.
- A batch with a repeated kind can report it both as a result and as failed:
  `GenerateBatch.BatchPartitionsExactly`.
- No path writes a blocked row to the ledger, so the report's blocked count is always zero:
  `Reporting.ReportMatchesRun`.
- A delivery that found its file busy commits its ledger row even when, since it looked, a job
  on the file settled and none was queued after it. Exactly then it leaves no live job:
  `EventSafety.CommitsLeaveJobsExactly`.
- The runner looks once that a job is not settled, and never again: a redelivered message or a
  forced run starts a job that is already running, a queued message starts one before its
  backoff is over, and the calls of a runner whose job was cancelled or requeued land on the
  row all the same (`apps/automation/services/pipeline.py:101-115`). The starts of a running job
  come on top of `max_attempts` (`JobLife.AttemptsAreBudgeted`, `JobLife.CeilingIsReached`), waits
  scheduled without a start before them on top of the backoff total
  (`JobLife.TotalWaitIsBounded`), and starts are spaced out only when they are made on due jobs
  (`JobLife.StartsAreSpacedOut`, `JobLife.EarlyStartIsNotHeldBack`). The row's columns agree with
  its status exactly unless such a call disturbs them: `JobLife.RowsAreConsistentExactly`.
- A settled job has no current stage, as the comment on the column says, exactly unless it failed
  terminally in a stage or a stage was begun on it afterwards: `JobLife.StageIsNullExactly`.
- Rows are read, looked at and written back without a lock. A token or a code is used once, and
  a count of failures or attempts counts them all, in exactly the interleavings in which no
  request writes after another has written between its read and its write; otherwise any number
  pass any limit: `Overlap.SingleUseExactlyWhenNoneOvertaken`,
  `Overlap.CountedExactlyWhenNoneOvertaken`, `Overlap.OverlapPassesEveryLimit`.
- An invalidation of the response cache takes effect exactly when its scan reached every entry
  and no answer already received is still to be stored: `GatewaySafety.InvalidationTakesEffectExactly`.
- Response headers reach the cache as a mapping, with a comment that only `Set-Cookie` is kept
  repeated; the proxy keeps every repeat, and of several `Cache-Control` headers only the last is
  looked at: `GatewaySafety.OptOutIsOverlookedExactly`.
- A title without a letter or digit gets a fallback slug of fifteen characters, whatever the
  limit: `Slug.FitsExactlyWithFallback`. A row that fails validation after its title was
  accepted still reserves its slug in the import: `Imports.DryRunAcceptsExactly`.
- The key encoding of zero is empty, where section 2 of RFC 7518 asks for one zero octet:
  `KeyEncoding.ConformsExactlyWhenPositive`.

## Assumptions

Rotations, sign-ins, code checks, flag changes and job calls are each one transaction, one after
another, except in `Overlap`; the counters, the ceilings, the event deliveries and the gateway
interleave. Clocks do not run backwards where a lemma says so. A token or session row takes its
dates from one reading of the clock; an access token is minted at a later one. Ids are never
drawn twice. Hashes are injective, either by keying a row with what is hashed or by an explicit
hypothesis. Money is whole
micro-dollars. Redis failures, crashes, provider answers, jitter and random draws are
parameters of the operation. Operations read and write committed rows, an insert into a unique
key waits for an uncommitted one and fails on a committed one.

## Model

| member | source | states |
|---|---|---|
| TokenFamilies.RunKeepsInv | apps/auth/services/tokens.py:145-324 | Every run of logins, rotations, revocations, status changes and sweeps keeps: each family is one parent chain of one user and session, revoked as a whole or not at all, with exactly its newest token unused |
| TokenFamilies.FamilyIsOneChain | apps/auth/services/tokens.py:175-209 | In every run from empty tables, of two tokens in a family the older is used, and the younger has a parent of its own no older than it; user and session agree |
| TokenFamilies.EndedFamilyGrantsNothing | apps/auth/services/tokens.py:283-292 | A family with no live token is granted nothing in any continuation |
| TokenFamilies.ReplayEndsFamily | apps/auth/services/tokens.py:231-243 | A replay is refused, touches no session and no other family, and when its effects are kept no continuation grants anything in its family |
| TokenFamilies.ReplayEndsFamilyExactlyWhenKept | packages/core-py/knowledgeos_core/db.py:205-217 | Reuse detection ends the family in every run if and only if a raised request's effects are kept |
| TokenFamilies.RolledBackReplayGrantsAgain | packages/core-py/knowledgeos_core/db.py:205-217 | With rollback there is a run in which the family is granted a pair after the replay |
| TokenRetention.SweepsCanBeErasedFrom | apps/auth/services/maintenance.py:80-104 | A swept and an unswept store that agree on everything still usable grant the same pairs in every continuation, the sweeps erased from one |
| TokenRetention.SweepsErasableExactly | apps/auth/services/maintenance.py:80-104 | Erasing every sweep from every run leaves exactly the same credentials granted if and only if the retention is not negative |
| TokenRetention.TokenStaysRecognisable | apps/auth/services/maintenance.py:87-104 | An issued token goes missing only after its issue time plus the retention, and keeps its dates until then |
| TokenRetention.KeptBeyondExpiryExactly | apps/auth/settings.py:53-67 | Tokens outlive their expiry by a given slack in every run if and only if lifetime plus slack fits in the retention (or is negative) |
| TokenRetention.NothingAfterDeadline | apps/auth/services/tokens.py:258-279 | Whatever happens, nothing is granted in a session after the deadline of its row, and no access token of it outlives the deadline by more than its own lifetime and the delay until it was minted |
| TokenRetention.LoginBoundsItsSession | apps/auth/services/tokens.py:156-186 | However often it is rotated, a session grants nothing after login plus refresh lifetime, and no access token of it outlives login plus both lifetimes plus the delay between the checks and its minting |
| TokenUse.PairIsExchangedExactly | apps/auth/services/tokens.py:219-279 | After any history, an issued pair is exchanged if and only if nothing since took it out of use, its session's deadline has not passed, its user is in good standing, and the CSRF token is left out or is the pair's own; the new pair is open in turn, and another CSRF token is refused and leaves it usable |
| TokenUse.LoginOpensPair | apps/auth/services/tokens.py:145-209 | A login gives such a pair, with a session and a family of its own |
| TokenUse.UsersAreAsSet | apps/auth/services/tokens.py:264-268 | After any history, who is in good standing is what was last said of them |
| TokenUse.RefusalIsFirstThatApplies | apps/auth/services/tokens.py:219-268 | A refusal gives the first reason that is true of the stored rows, and a pair is granted exactly when none is |
| TokenRows.SessionTellsItsHistory | apps/auth/services/tokens.py:270-324 | After any history a session is stored unless a sweep came more than the retention after its creation and its expiry, and it bears the time it was first revoked and the time a pair was last granted in it |
| TokenRows.TokenTellsItsHistory | apps/auth/services/tokens.py:231-324 | After any history a stored token bears the times it was first used and first revoked, by its family, its session, its user or a kept replay, and is otherwise unchanged but for its parent |
| TokenService.TwoDeletionsAreOneSweep | apps/auth/services/maintenance.py:87-104 | Deleting due tokens, then due sessions with their tokens by cascade, equals the one sweep of the model |
| TokenService.AuthStore.StartSession | apps/auth/services/tokens.py:145-173 | Inserts a session and its first token, and nothing else changes |
| TokenService.AuthStore.IssuePair | apps/auth/services/tokens.py:175-209 | Inserts exactly the next token of the family |
| TokenService.AuthStore.Rotate | apps/auth/services/tokens.py:211-279 | Consumes and reissues, or refuses for the first reason in the order of the checks; a replay revokes the family |
| TokenService.AuthStore.Refresh | packages/core-py/knowledgeos_core/db.py:205-217 | The rotation as a request: a refused one leaves nothing when the session is rolled back |
| TokenService.AuthStore.RevokeFamily | apps/auth/services/tokens.py:283-292 | Stamps exactly the family's live tokens |
| TokenService.AuthStore.RevokeSession | apps/auth/services/tokens.py:294-307 | Stamps the session and exactly its live tokens |
| TokenService.AuthStore.RevokeAllSessions | apps/auth/services/tokens.py:309-324 | Stamps exactly the user's live sessions and tokens |
| TokenService.AuthStore.Prune | apps/auth/services/maintenance.py:80-104 | Counts what is due; deletes it with its cascades, or nothing on a dry run |
| LockoutBound.FailuresSpendPotential | apps/auth/services/accounts.py:194-214 | Failed password checks in a window are covered by what the stored counter and lock leave possible |
| LockoutBound.FailuresInWindow | apps/auth/services/accounts.py:152-214 | Between successes and resets, at most max(1, max_attempts) plus one failure per elapsed lockout in any window, from any stored state |
| LockoutBound.ThrottledExactlyWhenKept | apps/auth/services/accounts.py:174-176 | Guessing at one moment is bounded by some number in every run if and only if refused effects are kept and the lockout is positive |
| LockoutBound.GuessesAllFail | packages/core-py/knowledgeos_core/db.py:205-217 | Otherwise any number of wrong passwords are checked at one instant |
| AccountUse.LinkWorksExactly | apps/auth/services/accounts.py:267-326 | After any history, a link that was sent sets the password if and only if it has not set one since, is within its lifetime, and the account is not deleted; otherwise it is refused unchanged |
| AccountUse.LinkWorksOnce | apps/auth/services/accounts.py:312-317 | After a link has set a password, it is refused after any further requests |
| AccountUse.LinkIsSentExactly | apps/auth/services/accounts.py:269-297 | A link is stored exactly for a present and active account, and nothing else changes |
| AccountUse.ResetPasswordSignsIn | apps/auth/services/accounts.py:316-323 | Right after a reset the new password alone signs in, to an active account that is not banned, whatever its lock and count were; no other account changes |
| AccountUse.ResetRestoresAllowance | apps/auth/services/accounts.py:318-323 | When refused effects are kept, after a reset and n wrong passwords the new one signs in if and only if n is below the allowance or the lockout has passed |
| AccountUse.RightPasswordWorksExactly | apps/auth/services/accounts.py:152-200 | When refused effects are kept, after n wrong passwords at one moment on a cleared account, the right one signs in if and only if n is below max(1, max_attempts) or the lockout has passed |
| AccountUse.RefusalIsFirstThatApplies | apps/auth/services/accounts.py:143-179 | A sign-in is refused for the first reason that is true of the account, and succeeds exactly when none is |
| AccountService.AccountService.Authenticate | apps/auth/services/accounts.py:128-192 | Lock before ban before password before activity; a failure is counted, a success clears the count |
| AccountService.AccountService.RegisterFailedAttempt | apps/auth/services/accounts.py:194-214 | Counts one more failure and locks at the limit |
| AccountService.AccountService.SignIn | packages/core-py/knowledgeos_core/db.py:205-217 | The sign-in as a request, with or without rollback |
| AccountService.AccountService.ResetPassword | apps/auth/services/accounts.py:301-326 | Uses up a valid link, sets the password, clears count and lock |
| MfaReplay.FirstMatchIsFirst | apps/auth/services/mfa.py:143-153 | The window search finds a matching step if there is one, and the least |
| MfaReplay.AcceptedStepsRise | apps/auth/services/mfa.py:96-153 | Between enrolments the accepted steps strictly increase and stay within one step of the clock, whatever codes coincide |
| MfaReplay.FewCodesAreAccepted | apps/auth/services/mfa.py:120-153 | While the clock moves from step s1 to s2, at most s2 - s1 + 3 codes are accepted (section 5.2 of RFC 6238) |
| MfaReplay.CodeOfOneStepWorksOnce | apps/auth/services/mfa.py:146-153 | A code belonging to one step signs in at most once, whatever is requested in between |
| MfaReplay.EachCodeWorksOnce | apps/auth/services/mfa.py:172-188 | Within one set, recovery codes used are pairwise different, from the set, and no more than were unused |
| MfaReplay.FewRecoveries | apps/auth/services/mfa.py:157-188 | After any history, at most recovery_code_count recovery sign-ins until codes are drawn again |
| MfaAccept.AcceptedExactly | apps/auth/services/mfa.py:120-153 | A code is accepted for a step if and only if it is all digits, is the code of that step within one of the clock and of no earlier step so near, and the step is later than the last accepted |
| MfaAccept.CodeSignsInExactly | apps/auth/services/mfa.py:96-108 | A code signs in by a step if and only if the factor is confirmed and the code without spaces and dashes is accepted for it; only the last step changes |
| MfaAccept.RecoverySignsInExactly | apps/auth/services/mfa.py:110-118 | A recovery code signs in if and only if it is not taken as a time-based code and exactly one unused row has it, which alone is marked |
| MfaAccept.CodeEnablesExactly | apps/auth/services/mfa.py:67-83 | A code enables the factor by a step if and only if an enrolment was begun and the code is accepted for it; the recovery codes are then the drawn ones, unused, and otherwise nothing changes |
| MfaAccept.DrawnCodeSignsIn | apps/auth/services/mfa.py:157-188 | A code drawn once signs in right after, however its letters and dashes were typed |
| MfaAccept.CleanedIsTyped | apps/auth/services/mfa.py:101 | Blanks around a code, and spaces and dashes in it, do not matter |
| MfaService.MfaService.BeginEnrolment | apps/auth/services/mfa.py:42-65 | Replaces the secret, or conflicts when enabled |
| MfaService.MfaService.ConfirmEnrolment | apps/auth/services/mfa.py:67-83 | Activates at the accepted step with a fresh set of codes, or changes nothing |
| MfaService.MfaService.Disable | apps/auth/services/mfa.py:85-92 | Removes secret and codes |
| MfaService.MfaService.Verify | apps/auth/services/mfa.py:96-118 | Takes a time-based code, else a recovery code, else refuses unchanged |
| MfaService.MfaService.VerifyTotp | apps/auth/services/mfa.py:120-153 | The loop accepts the first matching step of the window exactly when it is later than the last |
| MfaService.MfaService.RegenerateRecoveryCodes | apps/auth/services/mfa.py:157-170 | The stored codes are exactly the drawn ones, unused |
| MfaService.MfaService.ConsumeRecoveryCode | apps/auth/services/mfa.py:172-188 | Marks the one unused row with the code, refuses none, raises on several |
| BudgetCounter.UserCounterIsExact | apps/ai/services/budget.py:174-232 | In every interleaving of updates, inserts, conflicts, commits and aborts, a user's row is the sum of the committed charges, each in it once |
| BudgetCounter.LoserStillCharges | apps/ai/services/budget.py:219-232 | A charge that finds no row and then loses the insert adds to the row that came in between |
| BudgetCounter.ChargeReachesSeenRows | apps/ai/services/budget.py:191-202 | An addition reaches exactly the rows that were there when it was made, whatever is interleaved before it commits |
| BudgetCounter.SomeoneCanAlwaysProceed | apps/ai/services/budget.py:174-232 | No interleaving of charges to one counter deadlocks |
| GenerationLocks.NoCircularWait | apps/ai/services/generator.py:333-349 | However many transactions that record a charge and a result hold of platform row, user row and result key, one of them can take its next or end |
| GenerationLocks.StepKeepsExclusive | apps/ai/services/generator.py:333-349 | In every state no two such transactions have one resource: each step takes what no other has, or gives back all that its transaction has at its end |
| BudgetCounter.PlatformCounterIsExactWhenSerial | apps/ai/services/budget.py:174-232 | The unconstrained platform row is exact too when its first increments are serial |
| BudgetCounter.NonSerialInsertSplitsCounter | apps/ai/services/budget.py:203-223 | And only then: one insert that is not serial can be completed by commits alone to two rows |
| BudgetCounter.SplitCounterFailsEveryCheck | apps/ai/services/budget.py:72-93 | From there the single-row read of every check raises in every continuation |
| BudgetCounter.RowsOnlyGrow | apps/ai/services/budget.py:174-232 | No continuation merges rows again |
| BudgetCounter.RacedFirstRequests | apps/books/models.py:622-624 | A concrete race of two first requests leaves two platform rows |
| BudgetCounter.RacedPlatformRowCountsTwice | apps/ai/services/budget.py:191-200 | A request past its check by then is counted in both |
| BudgetLimit.RunKeepsInv | apps/ai/services/budget.py:95-172 | Committed spend plus what requests in flight may still add stays below ceiling plus k times c; a user outspends the platform on a day by k times c at most; and so the platform's ceiling bounds the user too |
| BudgetLimit.InFlightExactly | apps/ai/services/budget.py:95-138 | A request is in flight from when it finds the platform below its ceiling until it commits, is lost, or finds its user's ceiling reached |
| BudgetLimit.SpendStaysInReach | apps/ai/services/generator.py:257-259 | With at most k requests of a scope in flight, each costing at most c, no day's spend passes the reach: ceiling less one plus k times c, for a user also the platform's ceiling less one plus twice k times c, midnight or not |
| BudgetLimit.ReachIsAttained | apps/ai/services/generator.py:333-349 | Some run of such requests attains the reach, for the platform and for a user |
| BudgetLimit.ReachIsExact | apps/ai/services/budget.py:95-172 | A number bounds every day's spend in every such run if and only if the reach does not pass it |
| BudgetLimit.CeilingHoldsExactly | apps/ai/services/budget.py:47-62 | The ceiling is a hard stop if and only if nothing is admitted, or k times c is at most one, or for a user the platform's ceiling less one plus twice k times c does not pass the user's |
| GenerationBudget.SerialSpendStaysNearCeiling | apps/ai/services/generator.py:257-259 | In every run of calls one after another, each reading one day and costing at most c, no day's counter passes its own scope's ceiling less one plus c, or zero when the ceiling is not positive |
| GenerationBudget.OutcomeExactly | apps/ai/services/budget.py:95-138 | A call is turned away for the budget if and only if its result is not found and a counter it is charged to has reached its own ceiling; every other outcome is given exactly in its case |
| GenerationBudget.ServedCallIsRecorded | apps/ai/services/generator.py:314-349 | A served call leaves its ledger row, its cost on both its counters, and its result unless there was one |
| GenerationBudget.UnchargedCallsAreRecorded | apps/ai/services/generator.py:230-303 | A found result and a failed call leave one row without cost, and no charge; any other outcome leaves no row |
| GenerationBudget.RecordCounts | apps/ai/services/budget.py:191-215 | A counter counts requests and tokens with the cost, and no counter is opened but the call's own |
| GenerationBudget.EmbeddingIsChargedExactly | apps/ai/routers/internal.py:192-196 | An embedding is charged, to the platform alone, if and only if it is answered and the platform is below its ceiling |
| GenerationBudget.OldUserRowsArePruned | apps/ai/services/budget.py:253-266 | The sweep takes exactly the users' rows of days before its cutoff |
| GenerationCache.CommittedOnlyGrows | apps/ai/services/generator.py:183-208 | No step loses or replaces a committed result |
| GenerationCache.CoherenceBreaksExactlyWhenTorn | apps/ai/services/generator.py:137-208 | A step keeps Redis equal to the table if and only if it is not a store lost after warming |
| GenerationCache.RunStaysCoherent | apps/ai/services/generator.py:137-208 | Runs without such a loss keep the tiers coherent and every committed result |
| GenerationCache.HitServesCommitted | apps/ai/services/generator.py:226-255 | A hit serves the committed result, charges nothing and adds one cached row |
| GenerationCache.CommittedResultIsServedForever | apps/ai/services/generator.py:226-255 | After a key's first commit, every unforced generation returns that result at zero cost, through evictions, Redis failures, forced refreshes and prunes |
| GenerationCache.CompletionCommits | apps/ai/services/generator.py:333-349 | A completed call commits its result unless one was committed before |
| GenerationCache.TornStoreServesTwoResults | apps/ai/services/generator.py:183-208 | A torn store leads to two different results served for one key |
| GenerationLedger.BalanceBreaksExactlyWhenSplit | apps/ai/services/generator.py:286-349 | A step keeps every day's platform counter equal to its succeeded ledger costs and embeddings if and only if midnight does not fall between its two writes |
| GenerationLedger.CoverBreaksExactlyWhenUncovered | apps/ai/services/budget.py:140-172 | A step leaves no day on which users outspent the platform if and only if it is not a call whose increments fall on different days and whose user's exceeds what the platform is ahead on that day |
| GenerationLedger.BooksAreKeptExactly | apps/ai/services/budget.py:140-172 | A run keeps both equalities of the books in every one of its states if and only if none of its calls splits or uncovers |
| GenerationLedger.CountersMatchLedger | apps/ai/routers/internal.py:192-196 | At the end of every such run, the counter of a day is its ledger and embeddings, and at least the sum of the user counters |
| GenerationLedger.RunRecordsWell | apps/ai/services/generator.py:231-331 | Providers and costs stand on exactly the succeeded rows and nothing is blocked, in every run |
| Reporting.ReportAddsUp | apps/ai/services/reporting.py:43-50 | Billable requests are the succeeded and the failed; the kinds add up to the total |
| Reporting.ReportMatchesRun | apps/ai/services/reporting.py:57-112 | In every run the providers add up to the successes, nothing is blocked, and the cost is that of the window's whole days and of its first day from the window's first instant on |
| Reporting.MidnightWindow | apps/ai/services/reporting.py:57-59 | A window that begins at midnight has all of its first day |
| ReportRows.GroupsCountLabels | apps/ai/services/reporting.py:81-100 | Under any labelling there is a group for each label that occurs, and it counts the rows with it |
| ReportRows.ReportGroupsExactly | apps/ai/services/reporting.py:81-100 | The report has a group for exactly the kinds and the providers that occur, each with the number of its rows |
| ReportRows.OneRowMore | apps/ai/services/reporting.py:42-79 | A row more in the window adds one to the total and to its status, and its tokens and cost |
| ReportRows.WindowKeepsExactly | apps/ai/services/reporting.py:57-59 | The window holds exactly the rows from its first instant on, as often as the ledger does |
| GenerateBatch.Run | apps/ai/routers/internal.py:100-145 | The loop over kinds computes the specified partial result |
| GenerateBatch.BatchPartitionsExactly | apps/ai/routers/internal.py:100-145 | Every kind is reported once, as a result or as failed, for all outcomes if and only if no kind is repeated |
| GeneratorService.Generator.FromCache | apps/ai/services/generator.py:137-164 | Redis first, then the table, warming Redis |
| GeneratorService.Generator.Warm | apps/ai/services/generator.py:166-181 | Writes Redis only, and only when it can |
| GeneratorService.Generator.Store | apps/ai/services/generator.py:183-208 | Inserts and warms; an existing row wins |
| GeneratorService.Generator.Check | apps/ai/services/budget.py:95-138 | Passes exactly below both ceilings |
| GeneratorService.Generator.Increment | apps/ai/services/budget.py:174-232 | Adds to one row, or opens it |
| GeneratorService.Generator.Record | apps/ai/services/budget.py:140-172 | Charges the platform, then the user |
| GeneratorService.Generator.Generate | apps/ai/services/generator.py:212-349 | Cache, check, call, ledger, charge and store; a lost transaction leaves only Redis |
| GeneratorService.Generator.Embed | apps/ai/routers/internal.py:175-204 | Checks and charges the platform only |
| GeneratorService.Generator.PruneBudgets | apps/ai/services/budget.py:246-269 | Removes and counts exactly the old per-user rows |
| JobLife.AttemptsAreBudgeted | apps/automation/services/jobs.py:190-197 | In every life, attempts are the starts since the last reset and at most max(1, max_attempts) plus stale rescues plus count-keeping retries plus starts of a job already running; a waiting job has a start left |
| JobLife.GivenUpAfterExactlyTheAllowance | apps/automation/services/jobs.py:299-324 | With none of those a job is started at most max(1, max_attempts) times, and dead-lettered after exactly max_attempts starts when that is positive |
| JobLife.CeilingIsReached | apps/automation/services/jobs.py:429-454 | The bound is attained for every number of rescues, count-keeping retries and starts of a running job |
| JobLife.TotalWaitIsBounded | apps/automation/services/jobs.py:326-341 | Since its last reset a job waits at most 3/2 of min(base * (2^(max-1) - 1), cap * (max-1)), plus one cap for each wait scheduled without a start before it |
| JobLife.StartsAreSpacedOut | apps/automation/services/jobs.py:170-197 | Started only when due and called on only while running, a job starts after at least half of every earlier backoff |
| JobLife.EarlyStartIsNotHeldBack | apps/automation/services/pipeline.py:101-115 | A life in which the runner starts a job before its backoff is over |
| JobLife.RowsAreConsistentExactly | apps/automation/services/jobs.py:285-425 | In every life, finish, dead-letter, retry, stage and heartbeat columns agree with the status throughout if and only if no call lands where it disturbs them |
| JobLife.StageIsNullExactly | apps/automation/models.py:110-113 | In every life, settled rows have no current stage if and only if none fails terminally in a stage and no stage is begun on a settled row |
| JobColumns.ColumnsTellTheLife | apps/automation/services/jobs.py:190-425 | In every life heartbeat, start time, status and finish times are those of the last sign of the worker, the first start, and the last call that could turn the status |
| JobColumns.ClaimedExactly | apps/automation/services/jobs.py:170-182 | A job is claimed exactly while it waits, from its retry time on if it has one |
| JobColumns.BackoffEndsExactly | apps/automation/services/jobs.py:326-333 | A backed-off job can be claimed again exactly from the end of its wait on, and nothing else of it changes |
| JobColumns.DelayDoublesToTheCap | apps/automation/services/jobs.py:326-329 | The backoff begins at the base and doubles with every attempt up to the cap |
| JobColumns.DrawnWaitsExactly | apps/automation/services/jobs.py:326-332 | The waits that can be drawn are exactly those from half to one and a half times the backoff |
| JobColumns.RescuedExactly | apps/automation/services/jobs.py:429-446 | The sweep requeues exactly the running jobs whose last sign of life in their history is longer ago than the limit |
| JobColumns.RevivesExactly | apps/automation/services/jobs.py:299-425 | A call revives a job if and only if it finds it settled and leaves it live |
| JobColumns.ShownWaitsAreBounded | apps/automation/services/jobs.py:326-341 | What the rows show a job was made to wait since its last reset is within the backoff total and one cap for each wait that had no start of its own |
| EventSafety.RunKeepsInv | apps/automation/services/events.py:49-127 | Every interleaving of deliveries, job calls, requests and crashes keeps one live job per file, claims apart, the ledger in step and own jobs apart |
| EventSafety.OneLiveJobPerFile | apps/automation/models.py:78-89 | At most one live job per file in every run |
| EventSafety.EventIsHandledOnce | apps/automation/services/events.py:61-103 | An event commits in at most one delivery, with a job of its own at most, and is ignored only when it asks for nothing or one delivery committed |
| EventSafety.SomeDeliveryCanMove | apps/automation/services/events.py:87-103 | Deliveries never wait for each other in a circle |
| EventSafety.RedeliveryRecovers | apps/automation/services/events.py:113-123 | Once no transaction is open, a redelivery does what one undisturbed handling does |
| EventSafety.SettledMeanwhile | apps/automation/services/events.py:65-85 | A run in which a delivery commits and leaves no live job |
| EventSafety.CommitsLeaveJobsExactly | apps/automation/services/events.py:65-85 | In every run, each committing delivery leaves a live job on its file if and only if none commits on whose file, since it saw a live job, a job settled and none was queued or revived after it |
| EventSafety.StaysLiveExactly | apps/automation/services/jobs.py:285-425 | A step leaves a live job on a file if and only if it queues or revives one, or there was one and the step does not settle it |
| EventFiles.AsksExactly | apps/automation/services/events.py:49-59 | A job is asked for by exactly the created events whose payload names a file and a book, under either of two names each |
| EventFiles.AcceptedExactly | apps/automation/schemas.py:135-155 | Of those, a job is made for exactly the ones with a UUID and a plain key of admissible length, on that key without the blanks around it |
| EventFiles.CommittedIsOnItsFile | apps/automation/services/events.py:65-76 | In every run a committed delivery, and the job it created while it is stored, is on the file its event names |
| EventFiles.SameFileExactly | apps/automation/services/events.py:54-71 | Two acceptable events are about one file if and only if the keys they name agree but for the blanks around them |
| EventFiles.RequestMeetsQueuedJob | apps/automation/services/jobs.py:70-76 | A request over HTTP for the file of a job that an event queued meets that job and changes nothing |
| EventFiles.RequestQueuesExactly | apps/automation/services/jobs.py:70-120 | In every state with one live job a file, a request queues a fresh job exactly when its file has none |
| EventFiles.HandledExactly | apps/automation/services/events.py:49-85 | An undisturbed handling of a new event queues a job on the file that the payload names, or meets the live one there, or is rejected when no acceptable file is named |
| EventFiles.IgnoredExactly | apps/automation/services/events.py:50-63 | A delivery is ignored if and only if its event asks for nothing or was committed, and then never waits |
| EventFiles.PrunedExactly | apps/automation/services/jobs.py:463-471 | A job can be pruned exactly when it succeeded or was cancelled longer ago than the retention |
| JobService.JobService.Create | apps/automation/services/jobs.py:53-128 | Queues a job, or conflicts naming the live job on the file |
| JobService.JobService.MarkRunning | apps/automation/services/jobs.py:190-197 | Starts a job that is not settled, counting the attempt |
| JobService.JobService.Begin | apps/automation/services/pipeline.py:101-115 | Leaves a settled job alone and starts any other |
| JobService.JobService.Heartbeat | apps/automation/services/jobs.py:199-201 | Renews the heartbeat of the row, whatever its status |
| JobService.JobService.BeginStage | apps/automation/services/jobs.py:215-226 | Sets the stage in flight and renews the heartbeat, whatever the status |
| JobService.JobService.Succeed | apps/automation/services/jobs.py:285-297 | Settles the job as succeeded, with its stage and retry time cleared, whatever its status |
| JobService.JobService.ScheduleRetry | apps/automation/services/jobs.py:299-341 | Retries exactly while attempts are left, else dead-letters; beside another live job the index refuses to revive a settled one, and nothing is kept |
| JobService.JobService.FailTerminally | apps/automation/services/jobs.py:343-363 | Settles the job as failed, with its stage kept, whatever its status |
| JobService.JobService.Cancel | apps/automation/services/jobs.py:365-374 | Cancels a live job, or conflicts |
| JobService.JobService.PrepareRetry | apps/automation/services/jobs.py:376-425 | Requeues a settled job, conflicts on a live one, fails on the index beside another live job |
| JobService.JobService.RequeueStale | apps/automation/services/jobs.py:429-454 | Requeues and counts exactly the running jobs without a recent heartbeat |
| JobService.JobService.Prune | apps/automation/services/jobs.py:456-474 | Drops and counts exactly the old succeeded and cancelled jobs |
| JobService.JobService.Handle | apps/automation/services/events.py:49-127 | Claim, create and commit, or roll back, for one event without interference |
| JobService.StoredJobsAreBounded | apps/automation/services/jobs.py:299-341 | Every stored row of every reachable store has its attempts and waits within the bounds |
| Overlap.CountedExactlyWhenNoneOvertaken | apps/auth/services/accounts.py:194-203 | In every interleaving of requests that read a row and write it back, the row counts the writes if and only if none writes after being overtaken |
| Overlap.SingleUseExactlyWhenNoneOvertaken | apps/auth/services/tokens.py:220-279 | In every interleaving, a token or code is used at most once if and only if no request uses it after being overtaken |
| Overlap.OverlapPassesEveryLimit | apps/auth/services/mfa.py:146-153 | However low the limit, any number of overlapping requests pass it, and the row counts one |
| Overlap.AloneCountsExactly | apps/auth/services/accounts.py:194-203 | With nothing in between, a request writes if and only if the row is below the limit, and the row counts it; one that is given up leaves no trace |
| FlagHistory.TrailReplaysToStored | apps/admin/services/flags.py:132-243 | Replaying a flag's whole trail from nothing succeeds entry by entry and ends at the stored row or its absence |
| FlagHistory.RetainedTrailReplaysToStored | apps/admin/services/flags.py:263-275 | What pruning leaves is a suffix of the whole trail and chains from its own first entry to the stored row |
| FlagHistory.TrailTellsStoredExactly | apps/admin/services/flags.py:263-275 | The retained trail alone tells the stored row if and only if it is not empty or the flag is absent |
| FlagHistory.OnForExactly | apps/admin/services/flags.py:67-103 | Who a flag is on for, in one equation covering rollouts 0 and 100 and anonymous callers |
| FlagHistory.RaisingExactlyTakesFromNobody | apps/admin/services/flags.py:14-19 | Changing a rollout takes the feature from no user under any hash if and only if it does not lower it |
| FlagFields.ColumnsAreAsLastGiven | apps/admin/services/flags.py:132-201 | In every run each column of a stored flag holds what was last given for it since the flag was last created |
| FlagFields.StoredExactly | apps/admin/services/flags.py:132-219 | In every run a flag is stored if and only if the last request to create or delete it was to create it |
| FlagFields.OneRowPerChange | apps/admin/services/flags.py:221-243 | Each effective change writes one audit row with its label, its time and both sides, and any other leaves everything as it is |
| FlagFields.SinceKeepsExactly | apps/admin/services/flags.py:263-275 | Pruning keeps each row not older than the retention as often as it was there, and no other |
| FlagFields.ReasonIsTrue | apps/admin/services/flags.py:67-103 | Each reason is given exactly when it is true, and a flag is on exactly for the reasons that say so |
| FlagService.FlagService.Create | apps/admin/services/flags.py:132-161 | Inserts the flag and its audit row, or refuses a duplicate unchanged |
| FlagService.FlagService.Update | apps/admin/services/flags.py:163-201 | Changes exactly the given fields and records both sides |
| FlagService.FlagService.Delete | apps/admin/services/flags.py:203-219 | Removes the flag and records what it was |
| FlagService.FlagService.PruneAudits | apps/admin/services/flags.py:263-275 | Drops and counts exactly the audit rows before the cutoff |
| FlagService.FlagService.EvaluateMany | apps/admin/services/flags.py:105-128 | Decides every wanted key as a single evaluation does, and reports exactly the unknown ones |
| GatewaySafety.BestIsLongest | apps/gateway/routes.py:246-257 | The route chosen matches on a segment boundary and no longer one does |
| GatewaySafety.OrderDoesNotMatter | apps/gateway/routes.py:246-257 | With distinct prefixes the choice is the same for every order of the table |
| GatewaySafety.MaterialIsUnambiguous | apps/gateway/cache.py:82-92 | The key material determines method, path, query and scope, although a path may hold line breaks |
| GatewaySafety.HitRepeatsAnswer | apps/gateway/main.py:195-260 | In every interleaving, a hit repeats status and body of an earlier answer to the same method, path, query and caller, and that answer set no cookie |
| GatewaySafety.OptOutIsOverlookedExactly | apps/gateway/main.py:251-260 | An otherwise storable response is stored against its upstream's wish if and only if its last cache-control header does not decline |
| GatewaySafety.InvalidationTakesEffectExactly | apps/gateway/cache.py:171-193 | From every reachable state, nothing answered before an invalidation is served after it, whatever follows, if and only if the scan reached every entry and no received answer is still to be stored |
| GatewaySafety.StoredTooLate | apps/gateway/main.py:234-260 | An answer still to be stored is served after the invalidation in a run of two steps |
| GatewaySafety.LeftBehind | apps/gateway/cache.py:180-190 | An entry the scan did not reach is served after the invalidation |
| GatewayStore.StorableExactly | apps/gateway/cache.py:139-151 | A response may be stored if and only if caching is on, its status is 200, 203 or 404, its body fits, it sets no cookie, asks for no sign-in and does not decline |
| GatewayStore.KeptExactly | apps/gateway/cache.py:153-165 | The stored copy has status, body, and every header but the four that are made afresh |
| GatewayStore.KeyedExactly | apps/gateway/main.py:196-210 | A request takes part in caching if and only if its route caches, it reads, it asks for no fresh answer, and it is anonymous or its route varies by user |
| GatewayStore.SameKeyExactly | apps/gateway/cache.py:82-92 | Two requests that take part have one key if and only if method, path, query and caller agree |
| GatewayStore.FinishStoresExactly | apps/gateway/main.py:251-260 | From every reachable state, a finished request leaves its answer if and only if it takes part, Redis takes it, its route does not stream and it may be stored |
| GatewayStore.RepeatedQuestionIsHit | apps/gateway/main.py:195-222 | Once stored, the answer is given to the same question in every continuation that leaves the entry alone, and the question is not sent on |
| GatewayStore.WholeRequestThenHit | apps/gateway/main.py:172-262 | A request that misses runs through, and the same question then hits on its answer |
| GatewayStore.MissIsSentOnExactly | apps/gateway/main.py:195-245 | A request is sent on exactly when the cache is off or unreadable, it does not take part, or there is no entry |
| GatewayStore.AdmittedExactly | apps/gateway/main.py:173-180 | A request is admitted if and only if a route matches and has the caller it requires |
| GatewayStore.MatchesExactly | apps/gateway/routes.py:253-254 | A prefix matches a path if and only if it is the path or is followed in it by a slash |
| GatewayStore.FirstOfTheLongest | apps/gateway/routes.py:252-257 | Of the longest matching routes the first in the table is chosen |
| GatewayService.Gateway.Resolve | apps/gateway/routes.py:246-257 | The loop finds the longest matching prefix |
| GatewayService.Gateway.Store | apps/gateway/cache.py:130-169 | Stores exactly the responses that may be |
| GatewayService.Gateway.InvalidateAll | apps/gateway/cache.py:171-193 | The scan loop deletes and counts entries until none is left or Redis fails, and is the invalidation of what it reached |
| GatewayService.Gateway.Handle | apps/gateway/main.py:172-262 | A hit repeats a logged answer to the same question and changes nothing; a miss serves the upstream's answer and stores it when it may |
| Base64Url.DecodeEncode | apps/auth/services/oauth.py:261-285 | Decoding inverts encoding for every octet string (section 5 of RFC 4648) |
| Base64Url.PaddingIsRestored | apps/auth/services/oauth.py:265-278 | Stripped padding is restored from the length alone, and no dot is left in the body |
| OAuthState.ReadInvertsSign | apps/auth/services/oauth.py:249-289 | A signed state reads back to its verifier and address exactly for its provider and until it expires |
| OAuthState.AcceptedWasSigned | apps/auth/services/oauth.py:267-289 | An accepted state is a body followed by its own signature, names the provider, and is within its lifetime |
| KeyEncoding.UIntRoundTrip | apps/auth/services/keys.py:38-41 | Decoding an encoded parameter gives the number back |
| KeyEncoding.OctetsAreFewest | apps/auth/services/keys.py:38-41 | No octet string for the number is shorter |
| KeyEncoding.ConformsExactlyWhenPositive | apps/auth/services/keys.py:38-41 | The text decodes to a nonempty octet string for the number that no other undercuts, as section 2 of RFC 7518 asks, if and only if the number is positive |
| KeyEncoding.ConformingIsUnique | apps/auth/services/keys.py:38-41 | For a positive number a text conforms if and only if it is the service's |
| KeyEncoding.ZeroConformsAsOneOctet | apps/auth/services/keys.py:38-41 | For zero exactly the text of one zero octet conforms |
| Text.NormaliseIsNormal | apps/automation/services/documents.py:504-514 | Every output is in normal form: no CR, NUL, tab or no-break space, no doubled spaces, trimmed lines and ends, no three line breaks together |
| Text.NormaliseShrinks | apps/automation/services/documents.py:504-514 | It never lengthens, and leaves a text as it is if and only if the text is normal |
| Text.NormaliseTwice | apps/automation/services/documents.py:504-514 | Normalising twice is normalising once |
| Text.NormaliseKeepsLayout | apps/automation/services/documents.py:504-514 | The words of the text without its NULs are kept in order, none lost, split or joined, and two of them stay on one line, on neighbouring lines or parted by a blank line, however the lines were ended |
| Archive.AssertArchiveSafe | apps/automation/services/documents.py:138-176 | Safe with the exact total if and only if count, paths and size are within the rules; otherwise the first offending entry and its rule |
| Archive.TraversesExactly | apps/automation/services/documents.py:157-162 | A path is refused if and only if it starts at the root or two dots stand alone between separators of either kind |
| Slug.SlugifyMatchesPattern | apps/books/schemas.py:24 | Every title gets a slug of the catalogue's pattern, wherever the cut falls, within the limit on the deterministic path |
| Slug.FitsExactlyWithFallback | apps/automation/services/imports.py:43-55 | Every slug fits the limit if and only if the limit is at least fifteen |
| Slug.SlugifyTwice | apps/automation/services/imports.py:43-55 | A slug made from a title is its own slug |
| Slug.UncutSlugKeepsLetters | apps/automation/services/imports.py:50-52 | A slug that is not cut holds every ASCII letter and digit of the title in order |
| Imports.Run | apps/automation/services/imports.py:84-145 | The loop gives each row the result of its own rules and of the slugs before it; counts, errors and status sum up the results |
| Imports.DryRunAcceptsExactly | apps/automation/services/imports.py:206-235 | A dry run accepts a row if and only if it has a title, its fields are right, and no earlier titled row has its slug |
| Imports.AcceptedSlugsAreDistinct | apps/automation/services/imports.py:206-216 | Accepted rows have pairwise different slugs of the catalogue's pattern and length |
| ImportRows.RowIsHandledExactly | apps/automation/services/imports.py:147-204 | A row is accepted if and only if it is valid and, outside a dry run, the catalogue takes it; then a book is made, and a job exactly when a file is named and the queue takes it, whose refusal alone is reported and no failure |
| ImportRows.FirstProblemIsReported | apps/automation/services/imports.py:206-235 | An invalid row is reported for the first thing wrong with it: title, repetition, ISBN, price |
| ImportRows.FailuresAreTheRest | apps/automation/services/imports.py:116-125 | The rows reported as failed are those that are not accepted, as often as they occur |
| ImportRows.AcceptedAreCounted | apps/automation/services/imports.py:116-119 | The batch counts as succeeded the number of rows that are accepted |

## Left out

- What an overlap of rotations, sign-ins, code verifications or flag updates does to the rest of their rows: `Overlap` reduces a row to the number of its writes.
- The stages of the pipeline and their order are not part of this model; the calls the runner makes on a job are, in any order and on any row.
- JobLife.AttemptsAreBudgeted: a call reads and writes the row as it is stored. A runner in fact keeps the copy it loaded and writes the columns it changes, so one that loaded the job before another's start writes the count it loaded plus one, as `Overlap.CountedExactlyWhenNoneOvertaken` says, and looks at a status that may have settled since.
- Stage rows, job results, error texts and the priority order of the claim query.
- Event payload values that are not strings, and the broker's parking of an event after five failed deliveries (a run in which it is not delivered again).
- The other tables of the retention sweep (verification tokens, reset tokens, audit logs), the reason texts of revocations, and the account audit rows.
- Undecryptable second-factor secrets, which are refused like a wrong code.
- Negative backoff settings.
- Moderation and chat wrappers, prompts, provider selection, fallbacks between providers and cost estimation of the AI service; the hit counter and the expiry column of cached rows beyond the prune that reads it.
- Rounding of displayed costs.
- The second, independent random fallback an import draws when it creates the book of a title without letters; whether the catalogue and the job queue accept a row is a parameter.
- JSON, HMAC, SHA-256, bcrypt, Fernet, JWT and Unicode decomposition, which are parameters with the inverse or injectivity they need.
- The leniency of the language's base64 decoder towards foreign characters; a signed body has none.
- Rate limits, header forwarding and padding of the gateway, and the time to live of an entry, which appears as an eviction.
- Payment, books, search, notification and worker services, dashboards, deployment and seeding.
- Agreement of single and batch flag evaluation on keys that are not normalised: the single form buckets by the key as given.
- OAuthState.ReadInvertsSign: an address of the empty string reads back as no address, as in the code.
- GenerationLocks.NoCircularWait: a day's platform counter is one resource, also after a race has left it in two rows.
