# Verification

A Dafny 4.11 model of the backend's stateful cores, with proofs of what they promise. `dafny verify dfyconfig.toml`
checks everything.

- **The action engine.** Workers claim rows of an action table with `FOR UPDATE SKIP LOCKED`, run an executor and write
  the outcome back with statements that check neither status nor owner, while administrators replay, cancel and archive
  the same rows and the circuit breaker defers them. `ActionTable` holds the SQL statements (as functions, and as a class
  that performs them in place), `ActionEngine` the step system and its invariant, `EngineSafety` what every run
  guarantees, `ClaimWorker` the worker's own code, proved to be a run of those steps. A claim is a lock step and a
  commit step, and a dispatch can vanish between any two of its steps.
- **The circuit breaker** (`CircuitBreaker`): key-value cells against the log of successes, failures and clears.
- **Retry delays** (`RetryPolicy`), with the random draw as an argument.
- **The dead-letter list** (`DeadLetters`): a cut per table, a merge, a sort and a second cut.
- **Authorization codes and tokens** (`CodeStore`, `OAuth`): the swept, capped store against a ledger that never sweeps,
  and RFC 6749 sections 4.1.2 and 4.1.3 with RFC 7636 section 4.6 as a protocol whose key issuance is two separate writes.
- **The settings cache** (`Settings`, `SettingsRuns`): a get that misses reads the account row and the global row separately, and sets
  come in between.
- **The extraction worker** (`Extraction`): a cursor-paged loop with saved progress.
- **Content memory** (`Similarity`, `ContentMemory`, `DraftPosts`): Jaccard similarity, the window of 150 rows, publishing
  and drafts, with the idempotency key that every post goes through.
- **The event-stream reader** (`SseReader`) and **IPv4 literals** (`Numerals`, `Text`, `IpLiteral`).

A method that changes state says what the new state is by a function of the old one; the lemmas are about those
functions. Instants are integers in milliseconds; `now`, `at` and `workerNow` are readings of the database's and the
worker's clocks, which the engine's steps let disagree and move either way.

## Where the code does less than it says

Each of these is proved, with the exact condition where there is one, and most with a run that shows it.

- The lock lifetime suggests that a row whose worker died is claimed again. It never is: the claim query only takes
  `pending` and `failed` rows (`EngineSafety.OrphanIsNeverReclaimed`; `OrphansHappen` is a run). The same guard is why
  an expired lock is harmless.
- The comment on the revoke endpoint says that a client revokes only its own tokens. The statement looks the key up by
  hash alone (`OAuth.RevokesOwnTokenIff`), so any registered client that holds a token can revoke it, a key made by hand
  included (`OAuth.RevokesAnothersKey`).
- A settings get reads the account row and the global row apart. Its answer was the resolved value at some moment between
  its own two reads, unless three things meet: the account's first row was written between the two reads, the global
  level took the answered value only after that, and the account's row never had it in that time. This is exact
  (`SettingsRuns.AnswersAreRecent`), and it happens (`SettingsRuns.SplitReadHappens`, where the answer was the resolved
  value at no moment of the run). In every case the reads are less than a minute older than the get.
- Among strings, numbers, booleans, null, undefined and what JSON can carry, a stored setting comes back changed exactly
  if it was null, undefined or a non-finite number (`Settings.StoredComesBackIff`).
- An approval that fails after its enqueue leaves the draft pending. If its text was not remembered and the draft is
  approved again, the idempotency key decides: it holds the clock hour of the scheduled time, so a retry within the hour
  adds no post, and a later one posts the draft a second time (`DraftPosts.RetryPostsTwiceIff`, and over every run
  `PostedTwiceIff` and `UneditedPostedTwiceIff`). If only the last save failed, the memory holds the draft back for 150
  further rows, at any hour (`ContentMemory.LostSaveHoldsBack`). A draft can also be approved without a post of its own,
  when its key was taken (`DraftPosts.ApprovedWithoutAPost`).
- `replayAction` and `cancelAction` test the length of what the driver returns. Where that is the pair of rows and count
  that `claimBatch` allows for, the length is 2 and both report success whether or not a row matched
  (`ActionTable.Actions.ReplayAction` and `CancelAction`, with the form of the answer as a parameter).
- Resuming an extraction repeats the lines that were written after the last saved progress, unless no rows had been
  counted (`Extraction.ResumeIsExactIff`). Today this stays a property of `process` alone: nothing in the repository puts
  a job back to `queued`, so it is never started with rows already extracted.
- The transient delay is monotone in the attempt number exactly from attempt 1 on (`RetryPolicy.TransientMonotoneIff`;
  below it, `SameExponentBreaksOrder` has the two draws).
- The engine's transitions are those of the SQL statements (`failed` to `claimed`, `dead` to `cancelled` and so on).
  `ActionStateMachine` is not consulted by any of them and is not part of this model.

## Model

| member | source | states |
|---|---|---|
| EngineSafety.AtMostOneSuccessPerKey | backend/src/action-engine/claim-worker.service.ts:68-152 | In every run of every step (crashes, expired locks, repeated inserts, cancels, replays, archives included) two ok results of the executor for one idempotency key are the same event. |
| EngineSafety.SucceededIsFinal | backend/src/persistence/repositories/action-repository.ts:112-146 | Once a row is `succeeded`, no later step of any run changes any of its columns. |
| EngineSafety.OrphanIsNeverReclaimed | backend/src/persistence/repositories/action-repository.ts:75-77 | A row left `claimed` or `running` without a live dispatch stays exactly as it is in every continuation, whatever the clock says about `locked_until`. |
| EngineSafety.OrphansHappen | backend/src/action-engine/claim-worker.service.ts:50-66 | From the empty table, an insert, a claim and a crash lead to a claimed row that stays so in every continuation and is eligible at no time. |
| EngineSafety.OneOwnerPerRow | backend/src/persistence/repositories/action-repository.ts:103-178 | In every reachable state a row has at most one live dispatch, its status is the one its phase says, and apart from status and stamp it is the row the dispatch was handed, with attempts left. |
| EngineSafety.OthersKeepOff | backend/src/persistence/repositories/action-repository.ts:148-178 | No step of anybody else changes the row of a live dispatch, so the unguarded outcome writes overwrite nobody's work. |
| EngineSafety.OthersKeepOffRun | backend/src/action-engine/claim-worker.service.ts:102-115 | The same over any number of other actors' steps between two steps of a dispatch. |
| EngineSafety.OverlappingClaimsAreDisjoint | backend/src/persistence/repositories/action-repository.ts:72-92 | Open claims hold disjoint rows, none with a live dispatch, each still as it was when it was locked. |
| EngineSafety.ClaimHoldsRun | backend/src/persistence/repositories/action-repository.ts:80-91 | Between lock and commit of a claim no run changes the claim or the rows it holds. |
| EngineSafety.ClaimReturnsItsBatch | backend/src/persistence/repositories/action-repository.ts:80-91 | Whatever happens between lock and commit, the claim hands out exactly the rows its lock chose, with one new dispatch each; each is claimed by the worker until the lease ends and is otherwise the action it was when it was locked. |
| EngineSafety.OverlappingClaimsFormOneBatch | backend/src/persistence/repositories/action-repository.ts:72-92 | Any number of overlapping claims, with dispatches running and claims committing between them, share out the queue as one claim of all their sizes would: as many rows as asked for or free, none left that comes before a taken one, none taken twice. |
| EngineSafety.CalmKeepsQueue | backend/src/persistence/repositories/action-repository.ts:75-78 | A commit, an archive, or a dispatch's step that does not requeue its row for the present leaves the same rows free with the same contents. |
| EngineSafety.AttemptsAreExact | backend/src/action-engine/claim-worker.service.ts:139-147 | `attempts` is the number of failures recorded since insert or last replay, never above max_attempts; invocations in that span are at most max_attempts and exceed the recorded failures by at most the one in flight, crashed or succeeded. |
| EngineSafety.DeferralIsFree | backend/src/action-engine/claim-worker.service.ts:73-84 | A breaker deferral costs no attempt, logs nothing, and makes the row eligible exactly from five minutes on. |
| EngineSafety.BackoffIsBounded | backend/src/domain/services/retry-policy.ts:18-32 | The delays granted since insert or last replay total at most attempts, and at most (max_attempts - 1), times 30 minutes. |
| EngineSafety.OutcomeIsWritten | backend/src/action-engine/claim-worker.service.ts:123-147 | In every reachable state the write of an outcome leaves a success with its result, or one attempt more with the error noted: due again exactly when the worker's clock has passed the delay that is logged, which is that of the error's class and attempt; or dead and due at no time. |
| EngineSafety.WaitingRowsAreClaimable | backend/src/persistence/repositories/action-repository.ts:75-78 | Every reachable `pending` or `failed` row is unlocked, and is eligible at a time exactly if max_attempts is at least 1 and `scheduled_at` has come. |
| ActionEngine.RunKeeps | backend/src/action-engine/claim-worker.service.ts:50-66 | The invariant (row balances, unique keys, exclusive dispatches, claims as locked) holds after every run. |
| ActionEngine.StepKeeps | backend/src/persistence/repositories/action-admin.repository.ts:101-159 | Every single step of workers and administrators keeps it. |
| ActionEngine.OneRowKeeps | backend/src/persistence/repositories/action-repository.ts:103-178 | A step that moves one unlocked row, its dispatch and its log keeps the global invariant if it keeps that row's balance. |
| ActionEngine.InsertKeeps | backend/src/persistence/repositories/action-repository.ts:180-221 | `insertIfAbsent` keeps it, whether or not the key was taken. |
| ActionEngine.ClaimLockKeeps | backend/src/persistence/repositories/action-repository.ts:73-82 | Locking a batch of free eligible rows keeps it. |
| ActionEngine.ClaimCommitKeeps | backend/src/persistence/repositories/action-repository.ts:83-90 | Committing the lease and handing out dispatches keeps it. |
| ActionEngine.DeferKeeps | backend/src/action-engine/claim-worker.service.ts:73-84 | Deferring for a paused account keeps it. |
| ActionEngine.StartKeeps | backend/src/persistence/repositories/action-repository.ts:103-110 | `markRunning` keeps it. |
| ActionEngine.InvokeKeeps | backend/src/action-engine/claim-worker.service.ts:104-109 | Calling the executor keeps it. |
| ActionEngine.ReturnKeeps | backend/src/action-engine/claim-worker.service.ts:110-113 | The executor's return, or throw, keeps it. |
| ActionEngine.PersistKeeps | backend/src/action-engine/claim-worker.service.ts:118-147 | Writing the outcome keeps it although the statements check neither status nor owner. |
| ActionEngine.FailedRowFits | backend/src/action-engine/claim-worker.service.ts:139-147 | A recorded failure adds one attempt and one delay, and both stay within the row's budget. |
| ActionEngine.FailureFailsTheRow | backend/src/action-engine/claim-worker.service.ts:139-147 | What the failure write makes of the row for every class, attempt and draw, with the literal bounds of each class's delay. |
| ActionEngine.ReplayKeeps | backend/src/persistence/repositories/action-admin.repository.ts:101-111 | `replayAction` keeps it: the row restarts with a clean balance and had no dispatch. |
| ActionEngine.PutAwayKeeps | backend/src/persistence/repositories/action-admin.repository.ts:113-159 | Any statement that only cancels idle, unlocked rows keeps it, lock columns cleared or not. |
| ActionTable.Actions.SelectBatch | backend/src/persistence/repositories/action-repository.ts:73-82 | Chooses, in claim order and skipping locked rows, a full batch that leaves nobody earlier out. |
| ActionTable.Actions.First | backend/src/persistence/repositories/action-repository.ts:69-71 | The row chosen next has no row of the pool before it. |
| ActionTable.Actions.ClaimBatch | backend/src/persistence/repositories/action-repository.ts:63-101 | Takes pending or failed, due, unlocked rows with attempts left, as many as asked for or there are, by priority (if on) and time; each becomes claimed by the worker until the lease ends and is otherwise the action it was, account included; every other row is untouched. |
| ActionTable.BatchIsClaim | backend/src/persistence/repositories/action-repository.ts:73-82 | What the choice means clause by clause: status, schedule, attempts and lock of the rows that may be taken, their number, and that none left is due earlier or has a higher priority. |
| ActionTable.Actions.SetRunning | backend/src/persistence/repositories/action-repository.ts:103-110 | `markRunning` makes running exactly the claimed row asked for: its lock and everything else stay, other rows stay, and a second call changes nothing. |
| ActionTable.Actions.SetSucceeded | backend/src/persistence/repositories/action-repository.ts:112-146 | After `markSucceeded` the row is succeeded and unlocked with its result columns filled from the fields or the clock, its terms and attempts kept, no other row moved, and no claim, start, replay, cancel or archive moves it again. |
| ActionTable.Actions.SetFailed | backend/src/persistence/repositories/action-repository.ts:148-178 | After `markFailed` the row has the status, attempts, error and class given and no lock, and can be claimed at a time exactly if it went back to pending or failed with attempts left and its (new or kept) schedule has come; its terms and result and all other rows are kept. |
| ActionTable.Actions.Insert | backend/src/persistence/repositories/action-repository.ts:180-221 | Inserts exactly if no row has the idempotency key: a pending, unlocked, untried row with the account, schedule, priority and maximum (or 3) asked for; every other row is untouched. |
| ActionTable.Actions.ReplayAction | backend/src/persistence/repositories/action-admin.repository.ts:101-111 | Takes place exactly for dead, failed and cancelled rows, makes the row eligible from now on exactly if it may be tried at all, keeps terms and other rows, and a second replay changes nothing. The flag tells the truth if the driver answers with rows alone, and is always true if it answers with rows and count. |
| ActionTable.Actions.CancelAction | backend/src/persistence/repositories/action-admin.repository.ts:113-122 | Takes place exactly for pending and failed rows; the row is never eligible after it, keeps attempts and errors, can be replayed, and a second cancel changes nothing. The flag is as for a replay. |
| ActionTable.Actions.Archive | backend/src/persistence/repositories/action-admin.repository.ts:124-135 | No dead row is left, the count is of those there were, no other row changes, no row becomes or ceases to be eligible, and a second archive finds nothing. |
| ActionTable.Actions.CancelAccount | backend/src/persistence/repositories/action-admin.repository.ts:151-159 | No waiting row of the account is left; exactly the account's rows cease to be eligible, and every other row is untouched. |
| ClaimWorker.Worker.Dispatch | backend/src/action-engine/claim-worker.service.ts:68-116 | Rows and breaker cells after one dispatch: deferred, skipped, or run and recorded. |
| ClaimWorker.Worker.PersistOutcome | backend/src/action-engine/claim-worker.service.ts:118-152 | No other row moves; a success is recorded with its result and clears the account's count and pause; a failure costs one attempt, is due again when the granted delay has passed on the worker's clock or is dead, and counts one more failure of the account. |
| ClaimWorker.DispatchIsARun | backend/src/action-engine/claim-worker.service.ts:68-152 | The worker's dispatch, left alone, is a run of the engine's steps that ends with the same table and without the dispatch. |
| ClaimWorker.WorkerWritesTheLog | backend/src/action-engine/claim-worker.service.ts:134-148 | After any dispatches the breaker's cells are those of the event log of the dispatches that executed. |
| ClaimWorker.DefersIff | backend/src/action-engine/claim-worker.service.ts:73-84 | The next dispatch is deferred exactly if the account's executed dispatches end in at least three failures and an hour has not passed since the last; else it executes if there is an executor, and only then is an event added. |
| RetryPolicy.DecisionBounds | backend/src/domain/services/retry-policy.ts:18-32 | A retry is granted exactly while attempts remain and the error is not permanent; each class's delay lies in its window for every jitter draw. |
| RetryPolicy.RateLimitMonotone | backend/src/domain/services/retry-policy.ts:25-28 | The rate-limit delay never shrinks as attempts grow. |
| RetryPolicy.RateLimitDelays | backend/src/domain/services/retry-policy.ts:25-28 | The rate-limit delay of every attempt: one minute, doubling, half an hour from the sixth on. |
| RetryPolicy.TransientDelays | backend/src/domain/services/retry-policy.ts:29-31 | The transient delay of every attempt and draw: one second, doubling, plus three tenths times the draw, five minutes from the tenth on. |
| RetryPolicy.DecisionDelays | backend/src/domain/services/retry-policy.ts:22-31 | Which delay each class is granted. |
| RetryPolicy.TransientMonotoneIff | backend/src/domain/services/retry-policy.ts:29-31 | Whatever the two draws, the transient delay does not shrink from attempt a to a + 1 exactly if a is at least 1, which is where the worker starts counting. |
| RetryPolicy.SameExponentBreaksOrder | backend/src/domain/services/retry-policy.ts:29-31 | Below attempt 1 two draws exist that put the delays in the wrong order. |
| RetryPolicy.JitterBounds | backend/src/domain/services/retry-policy.ts:29-31 | The jittered delay lies between the base and 1.3 times the base, both cut at the cap. |
| CircuitBreaker.BreakerFollowsLog | backend/src/action-engine/circuit-breaker.service.ts:26-87 | For every serial log over any accounts, `load` reports the account's trailing failure count, last failure and its time, last success, and from three failures on the reason and when the pause began; `isPaused` holds exactly while that count is at least 3 and the hour since the last failure is not over, also between the two writes of a success or clear. |
| CircuitBreaker.LogMirrors | backend/src/persistence/repositories/control-state.repository.ts:81-93 | The stored cells mirror the account's own log after every prefix, unaffected by other accounts. |
| CircuitBreaker.HalfWrittenSuccessIsSeenWhole | backend/src/action-engine/circuit-breaker.service.ts:49-57 | Stopping between the upsert and the key deletion changes no pause decision. |
| CircuitBreaker.StampRoundTrip | backend/src/action-engine/circuit-breaker.service.ts:42-47 | The stored pause time reads back as the instant written. |
| CircuitBreaker.CountRoundTrip | backend/src/action-engine/circuit-breaker.service.ts:29-35 | The stored failure count reads back as the number written. |
| CircuitBreaker.ControlState.Upsert | backend/src/persistence/repositories/control-state.repository.ts:81-93 | All entries of the batch written for the account, later ones winning, nothing else changed. |
| CircuitBreaker.ControlState.DeleteKeys | backend/src/persistence/repositories/control-state.repository.ts:121-128 | Every read of a named key of the account finds nothing, every other read finds what it did, and a second deletion changes nothing. |
| CircuitBreaker.Breaker.Paused | backend/src/action-engine/circuit-breaker.service.ts:42-47 | The pause decision by its early returns is the one the log theorem speaks of. |
| CircuitBreaker.Breaker.RecordSuccess | backend/src/action-engine/circuit-breaker.service.ts:49-57 | Every cell after a success: not paused, count 0, the time of the success, pause cells gone, all others and other accounts as they were. |
| CircuitBreaker.Breaker.RecordFailure | backend/src/action-engine/circuit-breaker.service.ts:59-77 | Every cell after a failure: count, message, time, and from the third on the pause with its reason, start and end an hour later; all else as it was. And the snapshot returned. |
| CircuitBreaker.Breaker.Clear | backend/src/action-engine/circuit-breaker.service.ts:79-86 | Every cell after a clear, and the snapshot returned. |
| DeadLetters.ListDeadActions | backend/src/action-engine/application/action-queue.service.ts:105-118 | The list is a top list of all dead rows of all tables together (none left out is newer), and its created_at sequence is that of sorting everything once and cutting. |
| DeadLetters.ListDead | backend/src/persistence/repositories/action-admin.repository.ts:73-99 | One table's query returns a newest-first list of min(limit, dead) rows with nothing newer left out. |
| DeadLetters.DeadOfIs | backend/src/persistence/repositories/action-admin.repository.ts:81-84 | The listed rows of a table are its dead rows and no others, under the table's type. |
| DeadLetters.DeadOfCounts | backend/src/persistence/repositories/action-admin.repository.ts:81-84 | And as many as there are. |
| DeadLetters.TopOfGathered | backend/src/action-engine/application/action-queue.service.ts:111-117 | Rows left behind by every per-table cut stay behind in the merged cut. |
| DeadLetters.TopStampsUnique | backend/src/action-engine/application/action-queue.service.ts:115-117 | Any two top lists of the same rows and limit have the same dates. |
| DeadLetters.SortedSorts | backend/src/action-engine/application/action-queue.service.ts:115-116 | The stable sort yields a newest-first permutation. |
| DeadLetters.TakeSortedIsTop | backend/src/action-engine/application/action-queue.service.ts:115-117 | Sorting then slicing gives a top list. |
| CodeStore.SweepingIsInvisible | backend/src/oauth/oauth-code-store.service.ts:76-131 | On every trace with a monotone clock the sweeping store gives the same answers as a ledger that never sweeps; so `put` is refused exactly if at least cap live, unconsumed codes exist. |
| CodeStore.ClockRunningBackShows | backend/src/oauth/oauth-code-store.service.ts:99-114 | Without the monotone clock the two can be told apart (a concrete trace). |
| CodeStore.RedeemedAtMostOncePerPut | backend/src/oauth/oauth-code-store.service.ts:99-114 | In every trace a code is redeemed at most as often as it was accepted; while it is stored, strictly less often. |
| CodeStore.RedeemedWhileAlive | backend/src/oauth/oauth-code-store.service.ts:109-113 | What a redemption returns was put under that code at most 60 seconds before. |
| CodeStore.PutThenConsume | backend/src/oauth/oauth-code-store.service.ts:95-114 | On every monotone trace an accepted code, not redeemed or replaced meanwhile, gives its record up to and including the sixtieth second and nothing after it. |
| CodeStore.SizeNeverExceedsCap | backend/src/oauth/oauth-code-store.service.ts:83-95 | The map never grows beyond the largest cap in force. |
| CodeStore.Store.Sweep | backend/src/oauth/oauth-code-store.service.ts:120-131 | The loop drops exactly the entries whose end is before now, and counts them. |
| CodeStore.Store.Put | backend/src/oauth/oauth-code-store.service.ts:76-96 | Sweeps, then stores for 60 seconds or refuses by the cap; every other live entry stays. |
| CodeStore.Store.Consume | backend/src/oauth/oauth-code-store.service.ts:99-114 | Removes the code whatever its age; returns its record only while alive. |
| OAuth.TokensRestOnConsents | backend/src/oauth/oauth.controller.ts:119-247 | Every token issued in any run rests on an earlier step of that run in which the same user's body said "allow" for the same client and a registered redirect URI with a challenge that is S256 of the presented verifier, and on a redemption within 60 seconds in which the client gave its secret. |
| OAuth.AllowsWereAsked | backend/src/oauth/oauth.controller.ts:119-159 | Every consent in the log was asked for by a step of the run with decision "allow", that user, client, URI and challenge. |
| OAuth.TokensWereRedeemed | backend/src/oauth/oauth.controller.ts:168-237 | Every token in the log was asked for by a step of the run (or a request pending at its start) with that code, verifier and URI and the client's own secret. |
| OAuth.OneTokenPerConsent | backend/src/oauth/oauth.controller.ts:207-237 | No consent backs two tokens. |
| OAuth.OneActiveKeyPerClient | backend/src/persistence/migrations/1762900000000-OAuthSupport.ts:33-36 | However the two writes of issuances interleave, a user has at most one unrevoked key per OAuth client. |
| OAuth.IssuedKeyReplacesOlder | backend/src/auth/api-key.service.ts:55-71 | After an issued token exactly its row verifies, and every other key of that user at that client is revoked. |
| OAuth.RetiringMakesRoom | backend/src/auth/api-key.service.ts:60-64 | Left alone, the insert after the revoking update violates an index exactly if the key hash is already there. |
| OAuth.RevokesOwnTokenIff | backend/src/oauth/oauth.controller.ts:249-277 | A client's revocation touches only its own keys exactly if every live key of the presented token's hash is its own (the lookup is by hash alone, unlike the comment above it). |
| OAuth.RevokesAnothersKey | backend/src/oauth/oauth.controller.ts:249-277 | A run in which a client registered with a redirect URI revokes a key that a user made by hand. |
| OAuth.RevocationTouchesOneKey | backend/src/auth/api-key.service.ts:73-80 | In any reachable state a revocation changes one key at most, and the token verifies as none after it. |
| OAuth.ConflictIff | backend/src/auth/api-key.service.ts:55-71 | An issuance with other steps between its two writes ends in a conflict exactly if the new hash is taken or a token of the same user for the same client was issued in between and is not yet revoked. |
| OAuth.NewKeysWereIssued | backend/src/auth/api-key.service.ts:55-71 | A client's key that appears in a run was issued, and logged, in that run. |
| OAuth.ExchangeIsARun | backend/src/oauth/oauth.controller.ts:168-247 | The controller's exchange, left alone, is a run of the protocol steps with the same codes and keys at the end; a token comes out exactly when the run logs one. |
| OAuth.StepKeeps | backend/src/oauth/oauth.controller.ts:119-277 | Every protocol step keeps the invariant over codes, pending requests, log and keys. |
| OAuth.RunKeeps | backend/src/oauth/oauth.controller.ts:119-277 | Every run keeps it. |
| OAuth.Server.AuthorizeConfirm | backend/src/oauth/oauth.controller.ts:119-159 | A code comes out exactly for an "allow" with method S256, a challenge, a known client and a registered URI, while fewer than cap codes are live; what is stored is the caller's id and the body's client, URI, challenge and scope, for 60 seconds. Refusals come in the order of the checks and store nothing. |
| OAuth.GrantIffConsents | backend/src/oauth/oauth.controller.ts:122-153 | A body is granted exactly if it consents, and the record says what it said. |
| OAuth.Server.ExchangeCode | backend/src/oauth/oauth.controller.ts:168-247 | A token comes out exactly for the right grant type, the client's own secret, and a live code of that client, URI and verifier, unless the new key's hash is taken; its key is the consenting user's under the client's name. Early refusals leave the code, later ones consume it. |
| OAuth.TokenIffInOrder | backend/src/oauth/oauth.controller.ts:172-237 | The same of the exchange as a function. |
| OAuth.Server.IssueOAuthKey | backend/src/auth/api-key.service.ts:55-71 | Old keys retired, then the new row inserted, or a conflict exactly if an index objects. |
| OAuth.Server.Revoke | backend/src/oauth/oauth.controller.ts:254-277 | An authenticated revocation revokes exactly the unrevoked keys of the token's hash, at the time it is made; the token verifies as no key afterwards, every token of another hash verifies as before, and without authentication nothing changes. |
| OAuth.RetiredAre | backend/src/auth/api-key.service.ts:60-63 | An issuance first revokes exactly the user's unrevoked keys of that client, at that time, and changes nothing else of any key. |
| SettingsRuns.AnswersAreRecent | backend/src/settings/settings.service.ts:31-56 | Whatever gets and sets interleave, with the two reads of a miss apart: an answer is what its own reads found, made less than a minute before the get began or during it; it was the resolved value at some moment between its first and last read exactly unless the account's first row came between them, the global level reached the answered value only after that, and the account's row never had it. |
| SettingsRuns.AtomicReadsAreRecent | backend/src/settings/settings.service.ts:31-56 | If the value was read in one piece, the answer was the resolved value at that instant, less than a minute before the get began or during it. |
| SettingsRuns.GetIsARun | backend/src/settings/settings.service.ts:31-56 | An undisturbed get is a run that answers and caches as the service's own method does. |
| SettingsRuns.SetIsARun | backend/src/settings/settings.service.ts:58-66 | An undisturbed set is a run that writes and clears as the service's own method does. |
| SettingsRuns.SplitReadHappens | backend/src/settings/settings.service.ts:39-45 | A run in which a get answers with a value that was not the resolved one at any moment of the run. |
| SettingsRuns.SetThenGet | backend/src/settings/settings.service.ts:58-66 | After a set of a storable value has cleared its entry with no earlier read in flight on the pair, every get on the pair answers with that value until the pair is set again. |
| Settings.StoredComesBackIff | backend/src/settings/settings.service.ts:82-106 | Among strings, numbers, booleans, null, undefined and what JSON.parse can produce, a value survives inferType, text and parseValue exactly if it is not null, not undefined and not a non-finite number. |
| Settings.StoredForms | backend/src/settings/settings.service.ts:82-106 | The text written for each kind of value, and what is made of any text of each type. |
| Settings.Precedence | backend/src/settings/settings.service.ts:39-53 | The account's row wins over the global row, that over the three built-in defaults, and those over the fallback. |
| Settings.CacheKeyInjective | backend/src/settings/settings.service.ts:32 | Cache keys of colon-free setting keys are unambiguous whatever the account ids contain. |
| Settings.ColonsCollide | backend/src/settings/settings.service.ts:32 | A setting key with a colon shares its global entry with some account's key. |
| SettingsRuns.StepKeeps | backend/src/settings/settings.service.ts:31-80 | Every step keeps what is known of gets in flight, cache entries and answers. |
| SettingsRuns.SettledRun | backend/src/settings/settings.service.ts:58-79 | Once settled, a pair's answers stay its row's value over any run that does not set it. |
| Settings.Service.GetValue | backend/src/settings/settings.service.ts:31-56 | An uninterrupted get: the cached value if it is less than 60 seconds old, else the account's row, the global row, or the default, and only a row is cached. |
| Settings.Service.SetValue | backend/src/settings/settings.service.ts:58-66 | The pair now resolves to what its own row says, no other row moved, its cache entry is gone, and every other pair with a colon-free key keeps its entry. |
| Settings.Service.InvalidateCache | backend/src/settings/settings.service.ts:72-79 | The pair has no entry any more, and among colon-free keys every other pair keeps its own; without a key nothing is left. |
| Extraction.Worker.Process | backend/src/extractions/extraction-worker.service.ts:73-112 | The paged loop ends (max_rows minus rows strictly falls), asks each time for a batch or for what is left if that is less, leaves file and job row as the run function says, failures included, and writes exactly the progress points of that run, each with the file as it then is. |
| Extraction.FreshJobExtractsPrefix | backend/src/extractions/extraction-worker.service.ts:82-104 | A fresh job over a list paged in order ends with exactly the first min(max_rows, length) items in the file and that number in the row. |
| Extraction.RunAppendsTheRest | backend/src/extractions/extraction-worker.service.ts:82-101 | From any consistent point the run appends exactly the items up to min(max_rows, length). |
| Extraction.ResumedRunIsTheSame | backend/src/extractions/extraction-worker.service.ts:77-79 | A run that starts from a row with any progress the worker wrote, with the file as it then was, starts where the first run stood and ends with the same file and the same row, for any source. |
| Extraction.SavedPointsAreConsistent | backend/src/extractions/extraction-jobs.repository.ts:108-122 | Every progress saved by a fresh run has the cursor at rows_extracted and the file equal to that prefix. |
| Extraction.ResumeIsExactIff | backend/src/extractions/extraction-worker.service.ts:77-79 | Resuming gives the uninterrupted file exactly if the file found holds just the counted rows or none were counted; lines written after the last saved progress come twice. |
| Extraction.CountFollowsFile | backend/src/extractions/extraction-worker.service.ts:87-90 | Whatever the source answers, rows_extracted grows by the lines appended, and failure carries a detail. |
| Extraction.LastPageEnds | backend/src/extractions/extraction-worker.service.ts:92-97 | A page without a cursor, absent or empty, or without items ends the job with success and saves no progress. |
| Extraction.RowTellsTheRun | backend/src/extractions/extraction-jobs.repository.ts:124-149 | The finished row: success with the file and no error, or failure with the first 1000 characters of what the fetch at its own saved cursor threw; its count has grown by the lines written. |
| Similarity.ComputeJaccard | backend/src/content-memory/similarity-scorer.service.ts:20-27 | The counting loop computes intersection over union, 0 if either set is empty. |
| Similarity.JaccardIsASimilarity | backend/src/content-memory/similarity-scorer.service.ts:20-27 | Symmetric, within [0, 1], 1 exactly for equal non-empty sets, 0 exactly for disjoint ones. |
| Similarity.TriangleInequality | backend/src/content-memory/similarity-scorer.service.ts:20-27 | 1 - jaccard satisfies the triangle inequality for all finite sets, empty ones included. |
| Similarity.EchoesOfOneTextAreAlike | backend/src/content-memory/content-memory.service.ts:8 | Two sets at least 0.72 similar to a third are at least 0.44 similar to each other. |
| ContentMemory.RememberedTextsDiffer | backend/src/content-memory/content-memory.service.ts:20-57 | In every serial run a remembered text and an older row its account sees, with fewer than 150 visible rows between, differ in hash and in the first 14 words and share less than 72 of a hundred of their long words. |
| ContentMemory.NoReasonIff | backend/src/content-memory/content-memory.service.ts:37-45 | No reason is given exactly if nothing in the window is an echo. |
| DraftPosts.PostsOfADraft | backend/src/agent/services/agent-draft.service.ts:113-132 | Over every run the posts of a draft number its approvals that passed every check, reached the enqueue and found their idempotency key free. |
| DraftPosts.PostedTwiceIff | backend/src/agent/services/agent-draft.service.ts:102-133 | In every run a draft is posted twice exactly if two of its approvals reached the enqueue under different keys, neither of which somebody else's post has. |
| DraftPosts.UneditedPostedTwiceIff | backend/src/domain/services/idempotency-key.ts:10-16 | For a draft that is not edited, twice exactly if two such approvals were scheduled for different clock hours. |
| DraftPosts.KeysByHour | backend/src/domain/services/idempotency-key.ts:14-16 | For one account and text two keys are equal exactly if the hours are. |
| DraftPosts.KeyParts | backend/src/domain/services/idempotency-key.ts:14-16 | Keys are equal only for the same account, the same digest of the text and the same hour. |
| DraftPosts.PassTakesKey | backend/src/persistence/repositories/action-repository.ts:213-220 | An approval that reaches the enqueue leaves its key taken for good, by its own post if the key was free. |
| DraftPosts.RunKeepsKeys | backend/src/persistence/repositories/action-repository.ts:213-220 | In every run the keys of the posts stay distinct and nothing posted is removed. |
| DraftPosts.RetryPostsTwiceIff | backend/src/agent/services/agent-draft.service.ts:113-132 | A first approval fails before its text is remembered and a second succeeds: one post if both are scheduled for the same hour, two if not; approved in both cases, with the reference the source keeps. |
| DraftPosts.ApprovedWithoutAPost | backend/src/agent/services/agent-draft.service.ts:119-127 | A run that approves a draft with no post of its own, its key being taken. |
| DraftPosts.ApprovedDraftsArePosted | backend/src/agent/services/agent-draft.service.ts:126-128 | In every run an approved draft refers to its own post of its text, or to one of its keys under which a post is there. |
| ContentMemory.LostSaveHoldsBack | backend/src/agent/services/agent-draft.service.ts:113-132 | After an approval that failed only at its last save, over any run that leaves the draft's text and the account's rows alone, approving again does nothing, at any hour, while fewer than 150 further rows are remembered for the account. |
| ContentMemory.LostSaveIsNotPostedTwice | backend/src/agent/services/agent-draft.service.ts:113-132 | At once after such an approval its post is in the table or its key was taken, the draft is pending, and a second approval does nothing, at any hour. |
| DraftPosts.ClosedDraftsStay | backend/src/persistence/migrations/1763400000000-AgentSystem.ts:38-40 | Once approved or rejected a draft never changes while it exists, is never posted again, and exists until its account or its configuration is deleted. |
| ContentMemory.RunsFit | backend/src/ai-copilot/services/publish-orchestrator.service.ts:36-54 | After every run each remembered row was no echo of what its account then saw. |
| ContentMemory.Memory.SimilarityReason | backend/src/content-memory/content-memory.service.ts:20-46 | No reason exactly if none of the last 150 rows the account sees has the text's digest, agrees with it in the first 14 words, or shares 72 of a hundred of the words of 4 or more characters; else the reason of the newest that does, digest before opening before overlap. |
| ContentMemory.FirstReasonIsReason | backend/src/content-memory/content-memory.service.ts:25-45 | The same of the scan as a function, for any limit. |
| ContentMemory.SignatureIsOpening | backend/src/content-memory/text-normalizer.service.ts:30-32 | Two signatures are equal exactly if the first 14 words are. |
| ContentMemory.OverlapIsSharing | backend/src/content-memory/text-normalizer.service.ts:35-39 | The similarity is at least 0.72 exactly if 72 of a hundred of the long words of either are in both. |
| ContentMemory.WithoutIs | backend/src/accounts/accounts.service.ts:142 | Deleting an account deletes its memory rows and no others. |
| ContentMemory.Memory.Add | backend/src/content-memory/content-memory.service.ts:48-57 | The row added has the digest of the normalised text; the text is an echo at once to every account that sees the row, and the window of every other account is unchanged. |
| ContentMemory.Publisher.Enqueue | backend/src/persistence/repositories/action-repository.ts:213-220 | Adds a post exactly if its key is free and says so; afterwards its key is taken and no other key's state has changed. |
| ContentMemory.Publisher.PublishText | backend/src/ai-copilot/services/publish-orchestrator.service.ts:36-54 | Memory and posts after a publish, whichever of its writes fails; reported queued exactly if nothing echoes and both writes were made, and then the text is remembered for the account and a post with its key added, unless the key was taken. |
| ContentMemory.Drafts.ApproveDraft | backend/src/agent/services/agent-draft.service.ts:102-133 | Memory, posts and drafts after an approval, whichever of its writes fails, with the new row or the taken key as its reference; approved exactly if the draft changed, and then its text is remembered for its account. |
| ContentMemory.Drafts.RejectDraft | backend/src/agent/services/agent-draft.service.ts:135-148 | Takes effect exactly on the owner's pending draft, which nobody can decide or edit afterwards; all else stays. |
| ContentMemory.Drafts.EditDraft | backend/src/agent/services/agent-draft.service.ts:150-163 | Takes effect exactly on the owner's pending draft, changes only its text, and leaves it open to a decision; all else stays. |
| SseReader.ChunkingIsInvisible | backend/src/scripts/smoke-mcp-tools.ts:136-174 | Any chunking of a stream, even inside a blank line, gives the events and the remainder of the whole stream. |
| SseReader.DrainInTwo | backend/src/scripts/smoke-mcp-tools.ts:156-174 | Draining early and again after more text equals draining everything at once. |
| SseReader.DeliveredInStreamOrder | backend/src/scripts/smoke-mcp-tools.ts:136-154 | What has been taken off the queue is a prefix of the whole stream's events. |
| SseReader.RenderedEventDrains | backend/src/scripts/smoke-mcp-tools.ts:156-174 | A written event (its name, or none, and its data lines) drains to exactly that name, or message, and those lines joined, whatever follows. |
| SseReader.StreamDrains | backend/src/scripts/smoke-mcp-tools.ts:136-174 | A stream of written events in any chunks is read as exactly those events, with nothing left over. |
| SseReader.LastEventLineNames | backend/src/scripts/smoke-mcp-tools.ts:164-170 | The last event line names the event; without one it is message. |
| SseReader.TrimDrops | backend/src/scripts/smoke-mcp-tools.ts:168-169 | White space is taken off both ends of a value, and nothing else. |
| SseReader.McpClient.DrainEvents | backend/src/scripts/smoke-mcp-tools.ts:156-174 | The buffer loop returns all complete events and leaves the rest. |
| SseReader.McpClient.NextEvent | backend/src/scripts/smoke-mcp-tools.ts:136-154 | Delivers the head of the queue or the next event of the stream, losing no text or event on any exit; closed only at the end of the stream with nothing left, timed out only after a read per clock check. |
| SseReader.McpClient.WaitForEndpoint | backend/src/scripts/smoke-mcp-tools.ts:104-112 | Returns the first endpoint event taken, or none; every other event taken is set aside, in order. |
| SseReader.McpClient.FindPending | backend/src/scripts/smoke-mcp-tools.ts:117 | The scan finds the first set-aside answer with the id, if any. |
| SseReader.McpClient.TakePending | backend/src/scripts/smoke-mcp-tools.ts:118-121 | Moves one event from the set-aside list to the caller, no other. |
| SseReader.McpClient.Receive | backend/src/scripts/smoke-mcp-tools.ts:123-131 | Where a message goes: to the caller, aside, or lost exactly if its JSON is malformed. |
| SseReader.McpClient.WaitForResponse | backend/src/scripts/smoke-mcp-tools.ts:114-134 | The first answer set aside earlier, else the first in the stream with what came before it set aside in order; every event taken is in exactly one place, and one is lost exactly on a JSON error. |
| IpLiteral.EverySpelling | backend/src/monitoring/webhook-url-validator.ts:141-199 | For every 32-bit address the quad, the decimal integer with leading zeros, the hex integer, and both ::ffff: forms normalise to the one quad, which parses back to the address. |
| IpLiteral.MixedRadixSpelling | backend/src/monitoring/webhook-url-validator.ts:178-192 | Four parts, each 0x or 0X and hexadecimal digits, 0 and octal digits, or decimal digits, normalise to the quad of the numbers read in those radices, if each is at most 255. |
| IpLiteral.PartIsRead | backend/src/monitoring/webhook-url-validator.ts:184-186 | Each kind of part is read in its own radix. |
| IpLiteral.DottedSpelling | backend/src/monitoring/webhook-url-validator.ts:178-192 | Four parts that are read as numbers of at most 255 normalise to the quad of those octets. |
| IpLiteral.DecimalSpelling | backend/src/monitoring/webhook-url-validator.ts:162-168 | A run of digits is the quad of its value, or nothing if it has more than 32 bits. |
| IpLiteral.HexSpelling | backend/src/monitoring/webhook-url-validator.ts:170-176 | Hexadecimal digits behind 0x or 0X likewise. |
| IpLiteral.MappedHexSpelling | backend/src/monitoring/webhook-url-validator.ts:148-157 | ::ffff:hhhh:hhhh in either case is the address of its halves, signed shift and or notwithstanding. |
| IpLiteral.SignedWord | backend/src/monitoring/webhook-url-validator.ts:155 | The signed 32-bit shift and the bitwise or put the two halves together: their unsigned value is hi * 65536 + lo. |
| IpLiteral.DisjointOr | backend/src/monitoring/webhook-url-validator.ts:155 | Bitwise or of a number shifted left and one that fits into the freed bits is their sum. |
| IpLiteral.MappedDottedSpelling | backend/src/monitoring/webhook-url-validator.ts:142-146 | ::ffff: before a quad is that quad. |
| IpLiteral.QuadRoundTrip | backend/src/monitoring/webhook-url-validator.ts:197-199 | The quad of an address is a canonical literal that parses back to it. |
| IpLiteral.V4IsQuad | backend/src/monitoring/webhook-url-validator.ts:197-199 | Every canonical literal is the quad of the address it parses to. |
| IpLiteral.NormalizedIsAnAddress | backend/src/monitoring/webhook-url-validator.ts:141-195 | Nothing else comes out: the quad of some address, or an IPv6 literal in lower case. |
| IpLiteral.PrivateIffInBlock | backend/src/monitoring/webhook-url-validator.ts:219-231 | The octet tests on the quad of an address hold exactly if the address lies in one of the listed blocks. |
| IpLiteral.NormalizeIpLiteral | backend/src/monitoring/webhook-url-validator.ts:141-195 | The branches, with the octet loop and its early returns, compute the normalisation the other rows speak of. |
| Numerals.ParsePrint | backend/src/monitoring/webhook-url-validator.ts:184-186 | Printing a number and parsing it gives the number, in every radix from 2 to 16. |
| Numerals.PrintParse | backend/src/monitoring/webhook-url-validator.ts:198 | Parsing canonical digits and printing gives the same text. |
| Numerals.LeadingZeros | backend/src/monitoring/webhook-url-validator.ts:163-164 | Leading zeros do not change a numeral's value. |
| Numerals.ParseSnoc | backend/src/monitoring/webhook-url-validator.ts:184-186 | A further digit multiplies what stands before it by the radix and adds its worth. |
| Numerals.DigitWorth | backend/src/monitoring/webhook-url-validator.ts:184 | The worth of every digit, hexadecimal ones in either case. |

## Left out

- ActionEngine: one action table; `cancelPendingByAccount` repeats the modelled statement for every table in one
  transaction, and idempotency keys are unique per table.
- ActionEngine: liveness; nothing reclaims orphans, so progress holds only for rows in `pending` and `failed`.
- ActionEngine: a locking step sees one snapshot of the table; Postgres may lock a row that another transaction changed
  between its scan and its lock.
- ClaimWorker.Worker.Dispatch: a database write that throws ends the dispatch, which the engine has as a crash step; the
  session bookkeeping in `accounts` after the outcome, the timer loop, the `inflight` set and shutdown are not modelled.
- RetryPolicy.DecisionBounds: real arithmetic; rounding, and the overflow of `2 **` to infinity beyond a thousand
  attempts, are not modelled, and neither is the regular-expression `classify` (its result is an input).
- CircuitBreaker.BreakerFollowsLog: outcomes of one account come one after another; two concurrent failures can lose a
  count. `incrementCounter` is not used by the breaker.
- CircuitBreaker.StampRoundTrip: instants are stored as signed decimal milliseconds in place of the ISO 8601 text of
  `toISOString`, so it shows only that a readable layout is enough.
- DeadLetters.ListDeadActions: created_at is an integer that stands for its text, whose order is taken to be the time
  order. The column is TIMESTAMPTZ and the query is raw; with a driver that returns Date objects, `localeCompare` does
  not exist and the sort throws as soon as there are two dead rows. Which of several rows with equal dates is listed is
  unspecified.
- CodeStore: the Redis backend.
- OAuth: SHA-256 and the secret hasher are function parameters; fresh client ids, codes and row ids are a condition of
  the steps. URI syntax, the Basic header, the redirect's query string, `touchLastUsed`, `listForUser` and HTTP are left
  out, and white space in `stringField` is the ASCII kind.
- SettingsRuns.SetThenGet: number and JSON text are a codec parameter, numbers are integers; a set or clear in progress only matters by
  its two effects, the row and the cache entry. Settings rows are never deleted, as in the source. A get whose read precedes a set can restore the old value to the cache
  for up to a minute, which is why none may be in flight.
- Extraction.Worker.Process: claiming a job, cancelling one during its run (`markSuccess` is unguarded and would overwrite the cancel),
  failures of the file or the database inside the loop, lock times; a line is the item it was made from.
- Settings.StoredComesBackIff: values that JSON cannot carry (a Date, an object with an undefined member, a bigint, a
  function), which can come back changed as well.
- ContentMemory: lower-casing and the replacements of `normalize`, and both digests, are function parameters; requests are
  served one at a time, and rows have distinct creation times. The clock hour of a scheduled time is given as text;
  `toISOString` cut to 13 characters is one text per hour for the years 0 to 9999. What becomes of a post afterwards is
  the action engine's part.
- Similarity.ComputeJaccard: the quotient is a real number.
- SseReader: UTF-8 decoding across chunks, JSON (a parameter), HTTP posting; a deadline is a number of clock checks, and
  white space in `trim` is the ASCII kind.
- IpLiteral: the recogniser of IPv6 literals is a parameter (it needs a colon), and IPv6 prefix tests, DNS lookups, host
  lists and URL parsing are left out.
- The Postgres advisory locks of the monitor poller and the agent scheduler, scoring, browser automation, language-model
  calls, mail, the frontend, logging and metrics.
