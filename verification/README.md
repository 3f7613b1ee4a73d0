# PWDnow password manager: a verified model

This project models the parts of the PWDnow password manager in which correctness depends on more than
one function, and proves what they promise for every input, every run or every interleaving: the
monitor's trend arithmetic and restart limits, the daemon's backup codes, audit chain, sessions, lock
state and breach filter, and the web tier's locked user file, single-view shares, audit log, timed store,
rate limiters, hashing gate and one-time-password check.

`dafny verify dfyconfig.toml` checks everything. Each file is one module, named after its component.

| file | component |
|---|---|
| `Trend.dfy` | sample window, least-squares slope, time-to-threshold prediction |
| `Restart.dfy` | the risk engine and the action engine, which together limit and space restarts |
| `Base32.dfy`, `BackupCodes.dfy` | the streaming base32 encoder and one-time backup codes |
| `LockedFile.dfy`, `Accounts.dfy` | read-modify-write of the user file under a lock, and the accounts and duress counter kept in it |
| `ShareView.dfy` | the single-view share protocol |
| `AuditQueue.dfy`, `WebAuditChain.dfy` | the asynchronous audit queue and the trimmed hash chain behind it |
| `DaemonAudit.dfy` | the daemon's keyed audit chain |
| `StateStore.dfy`, `RateLimit.dfy`, `HashGate.dfy` | the timed key-value store and its two clients |
| `TotpReplay.dfy` | one-time-password periods and their pruning |
| `Sessions.dfy`, `VaultLock.dfy` | the session store, and the lock state machine and challenges built on it |
| `Cuckoo.dfy`, `HibpFilter.dfy` | the breach filter: builder, file, parser and lookup |
| `Common.dfy`, `Arith.dfy` | shared datatypes and arithmetic |

State that the program updates in place is a class whose methods are proved equal to a function on
values; what happens over whole runs is proved about that function. Code between two awaits is one step,
and a step of a protocol that is not possible leaves the state alone.

Assumptions, stated once. Clocks do not go backwards and timers never fire early; one step reads the
clock once. The lock-file library gives mutual exclusion. Random tokens and challenges are new, and the
model takes them, and all other random choices, as arguments. Keyed hashes, digests and code generators
are function parameters; where a proof needs them free of collisions this is a visible hypothesis, and
it is asked only of the messages, events or tokens of the run concerned, so a fixed-length hash can meet it. Encryption followed by
decryption gives back the plain text. Floating-point numbers are reals; integer widths, wrap-around and
truncation are modelled wherever they matter.

What the proofs show about the code, beyond confirming it:

- The trend guard against a zero denominator fires exactly when all time stamps in the window coincide.
- The comment in `can_retry` announces a factor 2^(attempts-1); the code uses 2^min(attempts, 7), and the
  model follows the code. The delay is that product exactly as long as it fits in 64 bits.
- Two consecutive restarts carry consecutive attempt numbers and are a back-off apart if and only if the
  action engine did not drop its counter at a poll between them (`SpacedIffNoReset`). After a drop the later
  one is a first attempt again, at any distance in time. Within one outage there is no drop; across a
  recovery there can be, because the engine is not called on a poll without events and later drops its stale
  counter together with its clock (`SpacingEndsWithTheOutage`). The nginx counters are never reset at all.
- A fixed-window limiter admits at most 2·MAX−1 checks in any span of one window length, and this is
  reached; one less than the usual 2·MAX estimate.
- At most three callers hash at once as long as the gate's counter does not expire while somebody is in
  flight; from every state in which it has, more than three can.
- A one-time password is never accepted twice if and only if at most 90 s pass between a verification's
  clock reading and its comparison.
- The daemon's last audit hash is equivalent to the length of the log, its time stamps and, per row, action
  followed by resource. It does not fix where one ends and the other begins: rows agree in full exactly when
  their actions are equally long and both or neither have a resource.
- In the session store the list of revoked digests never decides a validation, and rotation ignores both
  caps. A stored session that ran out of time validates again exactly after a touch before its absolute
  expiry; since the daemon's calls touch only what they have validated, no token ever comes back there.
- The breach filter's alternate-bucket map is its own inverse if and only if the number of buckets is a
  power of two, which the builder ensures. The module's header promises no false negatives; the finished
  filter finds a digest exactly when of its fingerprint and buckets more were inserted than given up, and
  an insertion that gives up drops a member: if five digests can live only in the first of the two buckets the
  builder gives them, then for every sequence of random choices exactly one of the five is missing
  (`FailedInsertLosesMember`). Any five different fingerprints with even hashes are such a case, as 5, 8, 10,
  12 and 14 are under the builder's SHA-1, which is not part of the model. The parser accepts
  files on which lookups panic: no lookup panics if and only if there is a bucket and the table size fits
  in 64 bits.

## Model

| member | source | states |
|---|---|---|
| `Trend.RingBuffer.Push` | monitor/src/risk.rs:341-346 | pushing drops the oldest sample when full, appends the new one, and never exceeds the capacity |
| `Trend.WindowIsRecentSuffix` | monitor/src/risk.rs:336-346 | after any number of pushes the window is the most recent samples, in order |
| `Trend.GuardExactlyOnEqualTimes` | monitor/src/risk.rs:366-371 | the zero-denominator guard fires if and only if all time stamps coincide; otherwise the denominator is at least one half |
| `Trend.FitIsOrthogonal` | monitor/src/risk.rs:361-372 | the normal equations: the residuals of the computed line are orthogonal to the times and sum to zero |
| `Trend.LeastSquares` | monitor/src/risk.rs:361-372 | for every window, a line's squared error is the fitted line's plus one square for its slope and one for its height at the mean |
| `Trend.BestLine` | monitor/src/risk.rs:361-372 | no line fits better than the computed one, and with two distinct times no other line fits as well |
| `Trend.CrossOfRising` | monitor/src/risk.rs:363-369 | Chebyshev's argument: increasing times and never-falling values with a rise give a positive numerator |
| `Trend.RisingTrend` | monitor/src/risk.rs:351-381 | such data has a strictly positive slope and a non-negative prediction for every threshold |
| `Trend.FallingIsReflectedRising` | monitor/src/risk.rs:384-390 | predicting a fall is predicting the rise of the reflected window |
| `Trend.FallingTrend` | monitor/src/risk.rs:384-390 | falling data has a strictly negative slope and a prediction |
| `Trend.SlopeOfLinear` | monitor/src/risk.rs:361-372 | on exactly linear data slope and intercept are the true ones |
| `Trend.EtaBracketsCrossing` | monitor/src/risk.rs:375-381 | on linear rising data the truncated prediction brackets the true crossing time within one second, short of saturation |
| `Trend.EtaFallingBracketsCrossing` | monitor/src/risk.rs:384-390 | the same for falling data |
| `Trend.EtaRisingIs` | monitor/src/risk.rs:375-381 | for every rising window, the prediction is the largest whole number of seconds within the distance to the threshold, zero once it is reached, and saturates at 64 bits |
| `Trend.EtaFallingIs` | monitor/src/risk.rs:384-390 | the same downwards |
| `Trend.NoTrendNoEta` | monitor/src/risk.rs:375-390 | no prediction is made exactly when the trend is not in the right direction |
| `Restart.BackoffDoubles` | monitor/src/action.rs:37-44 | the delay is initial times 2^min(attempts, 7) if and only if that product fits in 64 bits |
| `Restart.CountersAgree` | monitor/src/action.rs:98-129 | in every run a non-zero risk counter equals the action counter, and a counted attempt has a time |
| `Restart.RestartsPerOutage` | monitor/src/risk.rs:105-116 | after any history, one outage sees at most the configured number of restarts |
| `Restart.IssueFollows` | monitor/src/action.rs:118-129 | while the risk counter is non-zero, an issued restart waited out the back-off |
| `Restart.RestartsAreSpaced` | monitor/src/action.rs:33-45 | within an outage consecutive restarts are at least the back-off of the earlier attempt apart, even when the action counter was stale at its start |
| `Restart.NextFollowsIff` | monitor/src/action.rs:98-107 | the next restart follows the remembered attempt if and only if no reset fires before it; after a reset it is a first attempt |
| `Restart.SpacedIffNoReset` | monitor/src/action.rs:33-129 | for every run, two consecutive restarts carry consecutive numbers and respect the back-off if and only if no reset fires at a poll between them |
| `Restart.SpacingOverLife` | monitor/src/action.rs:67-108 | the same for every run from the start of the monitor |
| `Restart.SpacingEndsWithTheOutage` | monitor/src/main.rs:245-263 | four polls in which a reset after a recovery ends the spacing |
| `Restart.NginxRestartsForLife` | monitor/src/risk.rs:204-223 | for nginx the limit holds over the whole life of the monitor |
| `Restart.RiskEngine.Evaluate` | monitor/src/risk.rs:103-169 | a healthy service clears its counter; a failing one asks for a restart below the limit, else alerts |
| `Restart.ActionEngine.Process` | monitor/src/action.rs:67-195 | handling the events of a poll changes each service's two counters as the specification says |
| `Restart.PollCycle` | monitor/src/main.rs:245-263 | one cycle evaluates and acts, acting only when there are events |
| `Restart.AskedOnce` | monitor/src/risk.rs:103-223 | a poll asks for each restart at most once |
| `Restart.IssuesIff` | monitor/src/action.rs:33-45 | a failing, enabled poll issues a restart if and only if the attempts are below the limit and initial·2^min(k,7) seconds have passed since the last |
| `Restart.HealthyIsLeftAlone` | monitor/src/risk.rs:104-116 | a healthy or disabled service is never restarted |
| `Restart.AllRestartsAreUsed` | monitor/src/action.rs:110-129 | an outage polled slowly enough uses exactly the restarts it has left |
| `Base32.Encode` | daemon/src/vault/totp_db.rs:233-249 | the 64-bit register loop, with its flush, writes the unpadded base32 of section 6 of RFC 4648 for byte strings of any length |
| `Base32.RegisterKeepsLowBits` | daemon/src/vault/totp_db.rs:237-242 | the bits read from the register survive its wrap-around |
| `Base32.FlushGroup` | daemon/src/vault/totp_db.rs:246-248 | so do the bits of the flush |
| `Base32.GroupFromPrefix` | daemon/src/vault/totp_db.rs:236-244 | a group that lies inside the bytes read so far can already be emitted |
| `Base32.DecodeEncode` | daemon/src/vault/totp_db.rs:232-249 | decoding recovers the bytes |
| `Base32.CodesAreDistinct` | daemon/src/vault/totp_db.rs:229-249 | different seeds get different codes; ten bytes give sixteen letters of the alphabet |
| `BackupCodes.BackupCodeStore.Verify` | daemon/src/vault/totp_db.rs:144-159 | the first unused record that matches is marked and accepted; a malformed hash before it is an error |
| `BackupCodes.EachCodeOnce` | daemon/src/vault/totp_db.rs:114-160 | in any run of attempts each acceptance uses up one record and no record is accepted twice |
| `BackupCodes.AcceptedIff` | daemon/src/vault/totp_db.rs:144-159 | a code is accepted if and only if some unused record's hash verifies it, and the first such record is used up |
| `BackupCodes.UsedUp` | daemon/src/vault/totp_db.rs:144-159 | a code that only one record verifies is not accepted a second time |
| `LockedFile.FileIsFold` | web/lib/fileCrypto.js:137-154 | at every moment the file is the fold of the finished critical sections |
| `LockedFile.Serializable` | web/lib/fileCrypto.js:103-154 | under every interleaving the file is the fold of the callbacks in lock order, those that return false or throw adding nothing, and every unlocked read sees a prefix of it |
| `LockedFile.EncryptedFile.WithLock` | web/lib/fileCrypto.js:137-154 | one uncontended call loads, applies the callback, saves unless it declined or threw, and releases |
| `Accounts.UserList.FindIndex` | web/lib/vaultRepository.js:66-66 | the first user with the id, or none |
| `Accounts.UserList.Insert` | web/lib/vaultRepository.js:50-58 | inserting rejects a taken e-mail and otherwise appends |
| `Accounts.UserList.UpdateById` | web/lib/vaultRepository.js:63-74 | an update changes the matched user only, and nothing when the callback declines |
| `Accounts.UserList.DeleteById` | web/lib/vaultRepository.js:76-82 | deleting removes the first user with the id |
| `Accounts.LimitRange` | web/routes/vaultRoutes.js:169-169 | the stored duress limit lies between 1 and 20 and is the requested one when that does |
| `Accounts.FileStaysSound` | web/routes/auth/login.js:169-209 | under every interleaving e-mails stay unique and an armed account's count stays below its limit, on disk and in every read |
| `Accounts.DuressBudget` | web/routes/auth/login.js:170-186 | between resets every failure is counted or triggers a wipe, and fewer than the limit are counted |
| `Accounts.DuressBudgetInRun` | web/routes/auth/login.js:155-213 | the same inside any interleaving, between any two points of the lock order |
| `Accounts.SnapshotsSeeItArmed` | web/routes/auth/login.js:116-170 | while an armed account sees no reset, every unlocked read finds it armed with its limit, so every login that fails there enters the counter |
| `Accounts.OtherRecordsKept` | web/lib/vaultRepository.js:63-74 | a transaction on one account leaves the others alone |
| `Accounts.ResetsReset` | web/routes/auth/login.js:207-209 | a successful login, arming or disarming leaves the account with a count of zero |
| `Accounts.ArmingStores` | web/routes/vaultRoutes.js:169-175 | arming stores the requested limit when it lies in 1..20, three when none is given, and the nearer bound otherwise |
| `Accounts.DisarmingClears` | web/routes/vaultRoutes.js:172-187 | disarming leaves no limit |
| `Accounts.EditsStore` | web/routes/auth/login.js:161-212 | edits and logins store the new fields and keep identity, e-mail and arming |
| `Accounts.InsertAdds` | web/lib/vaultRepository.js:50-58 | a new account is found under its id and takes its e-mail; a taken e-mail changes nothing |
| `Accounts.CountFromReset` | web/routes/auth/login.js:170-181 | from a reset on, the stored count is the number of failures while that is below the limit, and stops just below it |
| `Accounts.KthFailure` | web/routes/auth/login.js:170-186 | the k-th failure after a reset with limit m is counted if k < m and decides a wipe if k >= m |
| `ShareView.ViewedAtMostOnce` | web/routes/vaultRoutes.js:354-401 | in every interleaving of views, revocations and expiry a single-view share is returned at most once, and only the owner's unexpired data |
| `ShareView.SingleUseStep` | web/routes/vaultRoutes.js:369-398 | each step keeps a share granted, being granted or claimable, never two of these, even when a rename re-creates a removed record |
| `ShareView.RevocationIsFinal` | web/routes/vaultRoutes.js:339-351 | from any state after a revocation at most one more grant happens, to the view that held the lock and had loaded the record; without such a view none |
| `ShareView.OwedStep` | web/routes/vaultRoutes.js:354-401 | no step adds to what is granted or owed after a revocation, and only a release by the lock holder grants |
| `ShareView.FirstViewIsGranted` | web/routes/vaultRoutes.js:354-401 | undisturbed, the first view of an indexed, unexpired share is granted |
| `ShareView.ExpiredIsRemoved` | web/routes/vaultRoutes.js:377-386 | a view that finds its record expired removes it and gets nothing; up to the deadline it goes on |
| `AuditQueue.HandedOverOnceInOrder` | web/lib/audit.js:118-141 | in every interleaving at most one flusher runs, a non-empty queue has one, and handed events, drained remainder and queue are the accepted events in order |
| `AuditQueue.Drains` | web/lib/audit.js:124-141 | no wake-up is lost: the flusher, resumed, hands over everything and stops |
| `AuditQueue.AcceptedBelowCapacity` | web/lib/audit.js:185-193 | an event is accepted, last in line, exactly when fewer than 5000 are queued |
| `AuditQueue.BurstIsAccepted` | web/lib/audit.js:118-141 | with the flusher never resumed, the first event is handed over and 5000 more are accepted behind it |
| `AuditQueue.Queue.AppendAuditEvent` | web/lib/audit.js:185-193 | appending accepts an event below 5000 queued and starts a flusher if none runs |
| `AuditQueue.Queue.Flush` | web/lib/audit.js:124-132 | a second flusher returns at once; the first drains the queue and starts on it |
| `AuditQueue.Queue.Continue` | web/lib/audit.js:128-141 | after an awaited event the two loops continue or the flusher stops |
| `WebAuditChain.AuditLog.Load` | web/lib/audit.js:36-57 | loading re-checks every event against the hash in force and flags what does not fit |
| `WebAuditChain.AuditLog.Append` | web/lib/audit.js:166-179 | appending chains the event to the last hash and trims to 2000 |
| `WebAuditChain.AuditLog.Clear` | web/routes/vaultRoutes.js:577-586 | clearing leaves one unhashed marker |
| `WebAuditChain.CheckedAt` | web/lib/audit.js:42-54 | an event's flag depends on its data and the last hash before it |
| `WebAuditChain.FlagsOf` | web/lib/audit.js:36-57 | of an untampered log, loading flags exactly the marker and an oldest event whose predecessor was trimmed and whose hash does not start a chain |
| `WebAuditChain.RunTracks` | web/lib/audit.js:166-179 | in every run the stored log is the newest part of the untrimmed chain |
| `WebAuditChain.UntamperedFlags` | web/lib/audit.js:36-57 | in every untampered run the newest 2000 events are stored and only the marker or the oldest event is flagged, the latter only after trimming, and always then if the hash does not collide on the events of the run |
| `WebAuditChain.FlagsUnderInterleaving` | web/lib/audit.js:143-183 | under every interleaving of workers that append and clear under the directory lock, the file and every load are logs of a prefix of the operations in lock order, flagged as in sequential runs |
| `WebAuditChain.FlaggedIff` | web/lib/audit.js:42-54 | of any stored log, tampered with or not, loading keeps the contents and flags an event exactly when it was flagged, has no hash, or its hash is not that of its data and the previous hash in force |
| `WebAuditChain.PrevIsNearest` | web/lib/audit.js:41-53 | the previous hash in force is that of the nearest hashed event before, or 64 zeros |
| `WebAuditChain.FlaggedIffBroken` | web/lib/audit.js:48-52 | on hashed events: flagged if and only if the event does not fit the one before it |
| `WebAuditChain.LastHashFixesTail` | web/lib/audit.js:36-57 | two logs of which at most the oldest event is flagged, and which end in the same hash, agree from the end back to the oldest event of the shorter one |
| `WebAuditChain.LastHashFixesCleanLog` | web/lib/audit.js:36-57 | two logs that load without a flag and end in the same hash agree event by event |
| `WebAuditChain.TamperingIsFlagged` | web/lib/audit.js:38-52 | whatever else is done to a clean log, while it ends in the same hash some event is flagged |
| `WebAuditChain.EditsAreFlagged` | web/lib/audit.js:38-52 | an event edited, or one removed or inserted before the last, leaves a flag |
| `DaemonAudit.VerifyChain` | daemon/src/vault/audit.rs:125-170 | verification passes if and only if every row fits the one before it; otherwise it reports the first fault |
| `DaemonAudit.AuditTable.Log` | daemon/src/vault/audit.rs:91-103 | a log call appends one row chained to the last and keeps a passing table passing |
| `DaemonAudit.EveryRunPasses` | daemon/src/vault/audit.rs:91-103 | every run of log under one key passes and records what was logged, in order |
| `DaemonAudit.MessageParts` | daemon/src/vault/audit.rs:41-63 | the hashed message determines time stamp, action followed by resource, and previous hash |
| `DaemonAudit.LastHashFixesLog` | daemon/src/vault/audit.rs:125-170 | two passing logs with the same last hash have equal length and agree row by row on time and on action followed by resource |
| `DaemonAudit.SameTextsSameHash` | daemon/src/vault/audit.rs:41-63 | conversely, passing logs that agree row by row on time and text have the same last hash |
| `DaemonAudit.LastHashIff` | daemon/src/vault/audit.rs:125-170 | two passing logs have the same last hash if and only if they agree in length, times and texts |
| `DaemonAudit.FullAgreementIff` | daemon/src/vault/audit.rs:57-62 | under the same last hash, actions agree at a row if and only if they are equally long, and resources too if and only if both or neither are present |
| `DaemonAudit.BoundaryIsNotFixed` | daemon/src/vault/audit.rs:57-62 | for logs of any length, moving the boundary between action and resource, or leaving out an empty resource, changes no hash |
| `DaemonAudit.DeletionIsNoticed` | daemon/src/vault/audit.rs:145-168 | what is left of a passing log after deleting rows passes if and only if it is a prefix |
| `DaemonAudit.RemovingOneRow` | daemon/src/vault/audit.rs:145-168 | removing one row makes verification fail unless it is the last |
| `StateStore.InMemoryStateStore.Get` | web/lib/stateStore.js:16-21 | returns the value unless the deadline has passed, which evicts |
| `StateStore.InMemoryStateStore.Set` | web/lib/stateStore.js:23-29 | replaces the entry and its timer |
| `StateStore.InMemoryStateStore.Del` | web/lib/stateStore.js:31-31 | removes the entry and its timer |
| `StateStore.InMemoryStateStore.IncrExpire` | web/lib/stateStore.js:33-44 | counts up, or starts at one with a new deadline |
| `StateStore.InMemoryStateStore.Decr` | web/lib/stateStore.js:46-53 | counts down, not below zero |
| `StateStore.InMemoryStateStore.GetDel` | web/lib/stateStore.js:55-65 | returns and removes in one step |
| `StateStore.InMemoryStateStore.EvictKey` | web/lib/stateStore.js:67-72 | removes an entry and cancels its timer |
| `StateStore.InMemoryStateStore.FireTimer` | web/lib/stateStore.js:26-26 | a due timer evicts its key |
| `StateStore.FireEvictsItsEntry` | web/lib/stateStore.js:26-28 | a timer that fires removes the very entry it was made for, whose deadline has come: it is never stale |
| `StateStore.TimersMatchEntries` | web/lib/stateStore.js:16-72 | in every run pending timers and entries with a deadline correspond one to one |
| `StateStore.StepRefines` | web/lib/stateStore.js:16-72 | each step is a step of an abstract timed map with the same answer |
| `StateStore.StoreRefinesTimedMap` | web/lib/stateStore.js:16-72 | every run is a run of the timed map, where a key drops out by itself only at the instant of its deadline |
| `StateStore.VisibleBeforeDeadline` | web/lib/stateStore.js:16-29 | strictly before its deadline an entry nobody replaces or deletes is found |
| `StateStore.InvisibleAfterDeadline` | web/lib/stateStore.js:16-29 | strictly after it nothing is found until somebody stores anew |
| `StateStore.TakenAtMostOnce` | web/lib/stateStore.js:55-65 | values handed out by getdel, plus the visible one, never outnumber the entries stored |
| `RateLimit.CheckRate` | web/lib/rateLimiter.js:33-41 | one check counts up and admits within the limit |
| `RateLimit.HitsAreOrdered` | web/lib/rateLimiter.js:33-41 | how any two admitted checks of a run relate in time, window and count |
| `RateLimit.FixedWindowBound` | web/lib/rateLimiter.js:27-41 | one counter window admits at most MAX checks, any span of one window length at most 2·MAX−1 |
| `RateLimit.BoundIsReached` | web/lib/rateLimiter.js:27-41 | for every limit a run that uses the key only for checks admits 2·MAX−1 of them in one window length |
| `RateLimit.LimitersAreExact` | web/lib/rateLimiter.js:27-303 | for each of the nine limiters, with its constants, 2·MAX−1 is the exact maximum over all runs that use the key only for checks |
| `HashGate.PasswordHasher.Start` | web/routes/auth/utils.js:127-134 | entering counts up and admits up to three |
| `HashGate.PasswordHasher.Finish` | web/routes/auth/utils.js:142-144 | leaving counts down on every path |
| `HashGate.CounterWithinFlight` | web/routes/auth/utils.js:127-175 | in every interleaving, across expiry, the count is at most the callers in flight, and zero or absent when there are none |
| `HashGate.AtMostThreeHash` | web/routes/auth/utils.js:127-175 | while the counter does not lapse it equals the callers in flight and at most three hash |
| `HashGate.ShortRunsNeverLapse` | web/routes/auth/utils.js:128-128 | a run within the counter's lifetime never lapses |
| `HashGate.LapseBreaksTheBound` | web/lib/stateStore.js:33-53 | from every lapsed state more than three callers can come to hash |
| `HashGate.LapseIsReached` | web/routes/auth/utils.js:128-138 | one caller hashing for longer than the counter lives reaches a lapsed state |
| `HashGate.GateFromIdle` | web/routes/auth/utils.js:127-175 | the three results above for every run from an idle start |
| `TotpReplay.UsedPeriods.Prune` | web/routes/auth/utils.js:282-288 | pruning keeps exactly the periods not older than the cutoff and forgets secrets with none |
| `TotpReplay.PruneSet` | web/routes/auth/utils.js:285-285 | pruning one secret's periods |
| `TotpReplay.UsedPeriods.Try` | web/routes/auth/utils.js:295-304 | a comparison finds no match, a replay, or a first use that it records |
| `TotpReplay.FirstUse` | web/routes/auth/utils.js:299-302 | a punctual comparison that finds its period unrecorded has never accepted it |
| `TotpReplay.NoReplay` | web/routes/auth/utils.js:280-308 | with at most 90 s of delay no (secret, period) pair is accepted twice in any run, despite pruning |
| `TotpReplay.SlackIsExact` | web/routes/auth/utils.js:280-308 | no replay happens in any run that keeps to a delay if and only if that delay is at most 90 s |
| `TotpReplay.NeighboursAreTried` | web/routes/auth/utils.js:295-303 | a code of the current period or one of its neighbours, not used before, is accepted by one of the three comparisons |
| `TotpReplay.VerificationDecides` | web/routes/auth/utils.js:290-308 | from any state, a code of six to eight digits is accepted if and only if the first of the three periods that has this code is unrecorded, and exactly that period is recorded; other text changes nothing |
| `TotpReplay.RecordedHas` | web/routes/auth/utils.js:300-303 | recording adds exactly one pair |
| `Sessions.SessionStore.Create` | daemon/src/auth/session.rs:88-124 | creating drops expired sessions, evicts an oldest one of a user at the cap, and refuses a full store |
| `Sessions.SessionStore.FindOldest` | daemon/src/auth/session.rs:108-113 | the evicted session has the least creation time of the user's |
| `Sessions.SessionStore.Validate` | daemon/src/auth/session.rs:128-146 | validation checks the revoked list, presence, both expiries and the process |
| `Sessions.SessionStore.Touch` | daemon/src/auth/session.rs:150-161 | a touch moves the idle expiry, capped by the absolute one |
| `Sessions.SessionStore.Rotate` | daemon/src/auth/session.rs:164-189 | rotation issues a new token of the same lineage and leaves the old one a grace period |
| `Sessions.SessionStore.RevokeAll` | daemon/src/auth/session.rs:192-194 | empties the store |
| `Sessions.SessionStore.RevokeAllExcept` | daemon/src/auth/session.rs:198-210 | strikes out the user's other sessions and lists exactly their digests beside those still running |
| `Sessions.LineageEnds` | daemon/src/auth/session.rs:88-189 | a token whose lineage was created at time t is refused from t + 24 h on, whatever mix of touches and rotations led to it |
| `Sessions.GoneForever` | daemon/src/auth/session.rs:88-210 | a token once removed never comes back |
| `Sessions.ValidatesExactlyStored` | daemon/src/auth/session.rs:128-146 | if no two issued tokens have the same digest, a token validates exactly when it is stored, in time and used by its process |
| `Sessions.RunKeepsListsGone` | daemon/src/auth/session.rs:198-210 | in every run only digests of removed tokens are on the revoked list |
| `Sessions.RevokedForEver` | daemon/src/auth/session.rs:198-210 | after revoke_all_except the user's other tokens are refused for ever |
| `Sessions.OthersUnchanged` | daemon/src/auth/session.rs:198-210 | and every other session is untouched and validates as before |
| `Sessions.TouchRevives` | daemon/src/auth/session.rs:150-161 | a session idle for too long is refused, and valid again after a touch |
| `Sessions.RevivedIffTouched` | daemon/src/auth/session.rs:150-161 | a stored session that ran out of time validates after a step if and only if that step is a touch of it before its absolute expiry |
| `Sessions.CapsHold` | daemon/src/auth/session.rs:98-120 | with k rotations a user never holds more than 8 + k sessions and the store 1000 + k |
| `Sessions.RotationAddsOne` | daemon/src/auth/session.rs:164-189 | every rotation adds a session without checking a cap |
| `Sessions.FromEmptyStore` | daemon/src/auth/session.rs:78-83 | lineages, revoked list and caps are as stated in every run from an empty store |
| `Sessions.ValidUntil` | daemon/src/auth/session.rs:128-146 | a stored token that no step touches, rotates, revokes or evicts validates, for its process only, exactly until the earlier of its two expiries |
| `Sessions.CreateStores` | daemon/src/auth/session.rs:88-124 | with fewer than 1000 sessions creation succeeds, and what it stores |
| `Sessions.CreatedWindow` | daemon/src/auth/session.rs:88-124 | a created token validates exactly until its lifetime or 24 h have passed, unless something acts on it |
| `Sessions.TouchedWindow` | daemon/src/auth/session.rs:150-161 | a touched token validates exactly until the lifetime from then, or its absolute expiry |
| `Sessions.RotatedWindows` | daemon/src/auth/session.rs:164-189 | a rotation gives the new token 900 s and leaves the old one 60 s, both within the absolute expiry |
| `VaultLock.DaemonState.LockInternal` | daemon/src/vault/state.rs:953-971 | locking clears connection, key, id, ticket and all sessions |
| `VaultLock.DaemonState.RecordFailure` | daemon/src/vault/state.rs:258-273 | a failure wipes when the header has a positive duress limit and the count has reached it, and wiping locks |
| `VaultLock.DaemonState.CreateSession` | daemon/src/auth/session.rs:88-124 | the session at the end of each path, with its eviction |
| `VaultLock.DaemonState.UnlockExisting` | daemon/src/vault/state.rs:777-867 | key, connection, id, ticket and session are set exactly when header, password policy, key, header HMAC, database, audit chain, migration and ticket write all held; otherwise nothing changes |
| `VaultLock.DaemonState.CreateAndUnlock` | daemon/src/vault/state.rs:903-939 | creation sets the key before it writes the header and opens the database, and a failure there leaves only the key |
| `VaultLock.DaemonState.UnlockWithPasskey` | daemon/src/vault/state.rs:534-659 | the path consumes its challenge first and loads everything before its session |
| `VaultLock.DaemonState.QuickUnlock` | daemon/src/vault/state.rs:1057-1165 | the same for quick unlock |
| `VaultLock.DaemonState.UnlockWithRecoveryKey` | daemon/src/vault/state.rs:1202-1238 | the same for the recovery key |
| `VaultLock.DaemonState.UnlockWithPassword` | daemon/src/vault/state.rs:747-775 | length limits and lockouts turn a caller away uncounted; other failures are counted |
| `VaultLock.DaemonState.UnlockRpc` | daemon/src/ipc/grpc_server.rs:86-143 | after the password path created a session, a token is returned exactly when no one-time password is active or a non-empty code was verified; otherwise nothing stays loaded and no session is left |
| `VaultLock.DaemonState.UnlockWithBackupCodeRpc` | daemon/src/ipc/grpc_server.rs:783-836 | the same with a mandatory verified backup code; a code of more than 64 characters changes nothing |
| `VaultLock.DaemonState.PasskeyRpc` | daemon/src/vault/state.rs:525-532 | a locked-out caller is refused uncounted, other failures are counted |
| `VaultLock.DaemonState.QuickUnlockRpc` | daemon/src/vault/state.rs:1048-1055 | the same for quick unlock |
| `VaultLock.DaemonState.RecoveryRpc` | daemon/src/ipc/grpc_server.rs:325-331 | with the recovery key every failure is counted, a lockout too |
| `VaultLock.DaemonState.PqcRpc` | daemon/src/vault/state.rs:1007-1024 | post-quantum unlocking always fails, and is counted unless locked out |
| `VaultLock.DaemonState.LockRpc` | daemon/src/ipc/grpc_server.rs:352-360 | an authorised lock locks |
| `VaultLock.DaemonState.WipeRpc` | daemon/src/vault/state.rs:975-1005 | a wipe needs an open vault and a 32-byte ticket whose hash is the stored one, and locks even if erasing then fails |
| `VaultLock.DaemonState.CallRpc` | daemon/src/ipc/grpc_server.rs:17-28 | an authenticated call validates, then touches its session |
| `VaultLock.DaemonState.ChangePasswordRpc` | daemon/src/ipc/grpc_server.rs:878-893 | a changed password replaces the key and revokes every other session of the vault |
| `VaultLock.SessionsMeanOpenVault` | daemon/src/vault/state.rs:747-971 | in every run, while any session is stored, key, connection and vault id are loaded |
| `VaultLock.AuthorisedCallsFindItOpen` | daemon/src/ipc/grpc_server.rs:30-47 | so an authenticated call never finds the vault locked |
| `VaultLock.FromClosedVault` | daemon/src/vault/state.rs:139-160 | both hold in every run from a closed vault |
| `VaultLock.UnlockedTokenWorks` | daemon/src/vault/state.rs:861-867 | an unlock that loads everything leaves the vault open with it, and its token is authorised for 900 s |
| `VaultLock.CallsKeepAlive` | daemon/src/ipc/grpc_server.rs:17-28 | an authorised call keeps its token authorised for another 900 s within the absolute expiry |
| `VaultLock.LockClosesEverything` | daemon/src/vault/state.rs:953-971 | a locking step leaves nothing loaded and nobody logged in; no other step drops a loaded key |
| `VaultLock.LockingCalls` | daemon/src/ipc/grpc_server.rs:104-119 | which calls lock |
| `VaultLock.NoEarlierTokenReturns` | daemon/src/ipc/grpc_server.rs:783-836 | after a lock, a failed second factor or a wipe no token issued so far ever validates again, across every unlock path |
| `VaultLock.ExpiredForEver` | daemon/src/ipc/grpc_server.rs:17-28 | in every run an issued token that is gone or out of time never validates again |
| `VaultLock.ChallengeStore.New` | daemon/src/vault/state.rs:161-173 | a new challenge drops expired ones and is remembered while fewer than 1000 are open |
| `VaultLock.ChallengeStore.Take` | daemon/src/vault/state.rs:178-186 | a challenge is removed when presented and accepted if unexpired |
| `VaultLock.ChallengesAreSingleUse` | daemon/src/vault/state.rs:161-186 | in every run a challenge is accepted at most once, within 600 s of being drawn, and at most 1000 are open |
| `VaultLock.ChallengeIsAccepted` | daemon/src/vault/state.rs:161-186 | a challenge drawn while fewer than 1000 are open is accepted when first presented within 600 s |
| `Cuckoo.InvolutiveIffPow2` | daemon/src/crypto/hibp.rs:150-158 | the alternate-bucket map is its own inverse if and only if the number of buckets is a power of two |
| `Cuckoo.DigestParts` | daemon/src/crypto/hibp.rs:144-150 | the first two bytes of a digest are its fingerprint, zero standing for one, and the next eight its primary bucket |
| `Cuckoo.FilterBuilder.PutIfRoom` | hibp/build-filter.sh:221-225 | a fingerprint goes to the first empty slot of a bucket, if any |
| `Cuckoo.FilterBuilder.Insert` | hibp/build-filter.sh:220-240 | an insertion tries both buckets and then relocates up to 500 fingerprints |
| `Cuckoo.KickKeepsSafe` | hibp/build-filter.sh:228-235 | a relocation passes the danger of being lost on to the fingerprint it evicts |
| `Cuckoo.InsertKeepsMembers` | hibp/build-filter.sh:220-240 | inserting keeps every item found and finds the new one; if it gives up, only items sharing the fingerprint in hand and its bucket can be lost |
| `Cuckoo.InsertContents` | hibp/build-filter.sh:220-240 | conservation: an insertion replaces one empty slot by the new fingerprint, or trades it for the one left in hand |
| `Cuckoo.PowerAtLeastIsPow2` | hibp/build-filter.sh:205-206 | the number of buckets the builder chooses is a power of two |
| `Cuckoo.KicksKeepCopies` | hibp/build-filter.sh:226-240 | relocation neither makes nor loses copies of a fingerprint in its pair of buckets, counting the one in hand |
| `Cuckoo.CopiesAndLosses` | hibp/build-filter.sh:220-258 | conservation over the whole build: copies stored plus copies given up are the digests inserted |
| `Cuckoo.FoundIffNotLost` | hibp/build-filter.sh:220-258 | a digest is found if and only if of its fingerprint and buckets more were inserted than given up |
| `Cuckoo.FoundUnlessGivenUp` | hibp/build-filter.sh:220-258 | however many insertions gave up, a digest is found unless one of them was left with its fingerprint on the way to one of its buckets |
| `Cuckoo.KicksStayFull` | hibp/build-filter.sh:226-240 | in a full bucket of fingerprints bound to it no sequence of relocations places one |
| `Cuckoo.FailedInsertLosesMember` | hibp/build-filter.sh:205-258 | five digests bound to the first of the two buckets the builder gives them: for all random choices exactly one insertion gives up, and a digest is found if and only if it is not the one left in hand |
| `Cuckoo.CrowdedDigests` | hibp/build-filter.sh:191-197 | any five different 16-bit fingerprints with even hashes belong to such digests |
| `Cuckoo.Build` | hibp/build-filter.sh:204-258 | the builder sizes the table, inserts every digest and counts what gave up; without skipped insertions every digest is found |
| `HibpFilter.ReadAll` | daemon/src/crypto/hibp.rs:69-81 | the chunks are put together up to the first empty read |
| `HibpFilter.ContentJoins` | daemon/src/crypto/hibp.rs:69-81 | however a file is cut into non-empty chunks, reading gives it back |
| `HibpFilter.Parse` | daemon/src/crypto/hibp.rs:110-132 | the header and size tests in order, in 64-bit arithmetic |
| `HibpFilter.Load` | daemon/src/crypto/hibp.rs:59-133 | the file is accepted exactly when digest, header and size fit, with the size computed in 64 bits |
| `HibpFilter.ParsePanicsIff` | daemon/src/crypto/hibp.rs:126-130 | parsing itself panics if and only if the header is well formed and the wrapped size is within 24 of the word |
| `HibpFilter.OverflowAccepted` | daemon/src/crypto/hibp.rs:126-132 | an overflowing number of buckets that is accepted |
| `HibpFilter.InBoundsIffNoOverflow` | daemon/src/crypto/hibp.rs:126-132 | for every accepted file all slot reads are in bounds if and only if the table size does not overflow |
| `HibpFilter.NeverCrashesIff` | daemon/src/crypto/hibp.rs:110-171 | for every accepted file no digest makes a lookup panic if and only if there is a bucket and the table size does not overflow |
| `HibpFilter.BeyondCrashes` | daemon/src/crypto/hibp.rs:126-171 | on overflow, a digest whose lookup panics |
| `HibpFilter.ZeroBucketsAccepted` | daemon/src/crypto/hibp.rs:110-132 | a file with zero buckets is accepted and every lookup in it panics |
| `HibpFilter.BucketContains` | daemon/src/crypto/hibp.rs:161-171 | the scan stops at the first match or the first read out of bounds |
| `HibpFilter.ScanInBounds` | daemon/src/crypto/hibp.rs:161-171 | within bounds it says whether one of the four slots holds the fingerprint |
| `HibpFilter.MightBePwned` | daemon/src/crypto/hibp.rs:137-159 | the lookup on any file and digest: an answer from its two buckets, or a panic |
| `HibpFilter.FileRoundTrip` | hibp/build-filter.sh:266-277 | loading the file written for a table gives back that table |
| `HibpFilter.LookupIffFound` | daemon/src/crypto/hibp.rs:137-171 | the daemon's lookup on the written and loaded file agrees with the builder's table |
| `HibpFilter.MembersAreReported` | daemon/src/crypto/hibp.rs:137-140 | from hashes to answer: the daemon reports a digest exactly when of its fingerprint and buckets more were inserted than given up, so every member if none was skipped |

## Left out

- User interface: React components, routing, translation and build files.
- Foreign code: cryptographic primitives, SQLCipher, libfido2, key-management adapters, mail, DNS, Redis and PostgreSQL drivers appear at most as function parameters.
- Failure schedules: account and fingerprint lockouts of the web tier and `daemon/src/vault/lockout.rs`; whether a caller is locked out, and how many failures are counted, are arguments.
- VaultLock.DaemonState.UnlockExisting, and the other unlock paths: the answers of files, key derivation, decryption, signatures and database are arguments, one per fallible call.
- Password change internals: re-keying of rows and headers in `change_password_inner` and `rewrap_vmk_with_current_kdf`; only its effect on key and sessions is modelled.
- Deadlock freedom of `DaemonState`: each remote call is one step, so lock order is not modelled.
- Crash-loop detection, disk, memory and certificate checks of the monitor, and its notifications: they only add to the number of further events of a poll.
- Cloud synchronisation (`daemon/src/sync/cloudflare.rs`), which is not wired in.
- Floating-point rounding, integers above 2^53 in JavaScript, timer jitter and the clamp of very long timers, lock-file staleness, corrupt files and crash recovery.
- First-time creation of the user file, which happens outside the lock: the file is taken to exist.
- Response headers of the rate limiters.
- The Redis variant of the store.
- Reading of the filter's manifest file: its first word, in lower case, is given.
- Cuckoo.Build: the number of buckets is computed over the reals, without the rounding of floating-point numbers.
- Cuckoo.FilterBuilder.Insert: the table is a sequence of fingerprints that the methods reassign, not a byte buffer updated in place; the two-byte packing is modelled when the file is written.
- Sessions.SessionStore.Create: does not model 64-bit overflow of the clock plus the lifetime, which no caller reaches.
- DaemonAudit.AuditTable.Log: does not model exhaustion of 64-bit row ids or database errors.
