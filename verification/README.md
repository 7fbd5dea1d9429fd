# Mintkey in Dafny

A Dafny 4.11 model of the parts of Mintkey whose correctness is easiest to get wrong: the
write-ahead audit queue, and the small stateful cores around it. Run
`dafny verify dfyconfig.toml` to check every file.

**The audit queue** (`packages/go/auditq`) is modelled in two layers.

- *Bytes to lines.* `Separated`, `WalLines`, `WalBytes`, `WalTombstone`, `WalEvents` and `WalBatch`
  treat the file as a sequence of bytes and give what append, torn append, tombstone, torn
  tombstone, locate, read and compact do to its lines. `AuditQueue` holds the class `Queue`,
  whose methods rewrite the bytes in place and are proved against those functions.
- *Lines to protocol.* `AuditProtocol` is a state machine with one step per critical section:
  enqueuers, the drainer with its concurrent replies, the compactor, process death at any byte,
  and restart. `AuditSafety` proves conservation over every run, `AuditWake` the wake-up law,
  `AuditGauge` the backlog gauge, `AuditShutdown` the number of passes after Close and the back-off
  law, `AuditTermination` that the drainer ends, `AuditCompaction` crash safety of the file
  replacement, and `AuditReadPass` that the method `ReadBatch` is a run of the machine. `AuditDrift`
  and `AuditMiss` hold the runs in which a law fails.

A JSON event is any byte string that satisfies two assumptions, which appear as parameters and
not as axioms. `Encodes`: an encoded event is non-empty, holds no newline, neither starts nor ends
with white space, does not start with `~`, is readable, and no proper prefix of it is readable.
`NestingFree`: no event occurs inside another. `SettleExact`, `SettleCanMiss` and
`NestedEventIsLost` show what happens without the second assumption.

**The supporting cores** are the IMAP connection pool (`ImapPool` with the classes, `PoolSystem`
with every interleaving, `PoolRotation` with what credential rotation does), the budget counter (`Budget`) over a Gregorian calendar (`Period`), the
sliding-window limiter (`RateLimit`), the JWKS cache (`Jwks`), the wire-form ids with the Kong
configuration built from them (`Numerals`, `WireIds`, `Kong`), the broker's key id (`Kid`), the
first reconciliation's retry loop (`Retry`) and the scope claims (`ScopeClaims`).

Where a law does not hold of the code, the model keeps the code, a lemma gives an input or a run on
which it fails, and another says exactly when the law holds:

- Settling compares bytes at a remembered offset without looking at line boundaries, so after a
  compaction it can strike the inside of another line (`SettleExact`), and it does so for every
  event inside another (`SettleCanMiss`), which is then lost (`NestedEventIsLost`).
- A compaction that completes an unterminated but readable last line creates work that nobody
  is woken for (`WakeStep`, `WakeCanBeLost`).
- The gauge drifts by a known amount in a few steps (`GaugeStep`), and the next read makes it exact.
  There is a run for each: a cut tombstone, a cut append, a failed read and a full memory channel
  (`CutTombstoneDrifts`, `CutAppendDrifts`, `FailedReadDrifts`, `FullChannelDrifts`).
- An append cut just before its newline is reported as failed and yet leaves a live copy (`TornCopy`).
- The cap per key and the meaning of the active counter hold exactly without rotation
  (`CapHoldsExactly`, `ActiveIsLeasedExactly`); with n pools the cap is reached n times over
  (`RotationsReachBound`), and the counter of the new pool can go negative (`RotationExceedsCap`).
- The budget is kept but for leaks (`BudgetIsExact`). After a refused upsert a check can leak at an
  instant exactly when the table holds the row of another period that includes this instant and has
  room (`LeaksExactly`). While all checks of a permission carry one period, that is at a period's
  first instant only (`OnePeriodLeaks`); after a change of period it is at any instant of the older,
  longer row. In both cases any number of checks can pass under a ceiling of one (`BoundaryLeaks`,
  `ChangedPeriodLeaks`, both from `OlderRowLeaks`). A ceiling below one still lets one call pass
  (`CeilingBelowOne`).
- The limiter counts right exactly when nothing it pruned lies in the caller's minute
  (`CountAgrees`), which an ordered clock ensures and one that steps back does not
  (`BackwardClockExceeds`).
- The JWKS limits are on successful fetches; failed ones are not limited (`FailuresAreNotLimited`).
  The comment on `GetKey` promises a forced refresh for an unknown key id; the code calls the
  plain, rate-limited one, so no request is made exactly while an unforced fetch is less than 30 s
  old (`UnknownKeyWaits`, with an input in `KnownUpstreamStaysUnknown`).
- Decoding accepts tokens that encoding never makes (`EncodeDecoded`), and a virtual host is
  shared by two pairs of slug and tenant exactly when the slug or the tenant has a dot
  (`HostIsSharedExactly`).

## Model

| member | source | states |
|---|---|---|
| `WalBytes.AppendLines` | packages/go/auditq/queue.go:377-399 | an append closes an unterminated tail as a line of its own and adds exactly the new line |
| `WalBytes.TornAppendLines` | packages/go/auditq/queue.go:377-399 | an append cut at any byte leaves every earlier line as it was and adds at most a fragment of the new one |
| `WalBytes.AppendAfterTorn` | packages/go/auditq/queue.go:377-399 | after an append cut at any byte the next append still lands on a line of its own |
| `WalBytes.ClosedCarries` | packages/go/auditq/queue.go:377-399 | closing the tail changes neither the kept lines, nor the texts, nor the pending count |
| `WalBytes.WriteLine` | packages/go/auditq/queue.go:478-495 | bytes written inside one line without a newline change that line only |
| `WalBytes.TornTombstoneReads` | packages/go/auditq/queue.go:478-495 | a tombstone cut after any number of bytes is read as a tombstone, or the line is untouched |
| `WalBytes.TornTombstoneLines` | packages/go/auditq/queue.go:478-495 | a tombstone cut at any byte changes no other line |
| `WalBytes.CompactionKeeps` | packages/go/auditq/compact.go:128-149 | compaction keeps the sequence of lines that are neither blank nor tombstoned and is idempotent |
| `WalBytes.CompactionSize` | packages/go/auditq/compact.go:128-149 | compaction grows the file by at most one byte, and only when the tail was unterminated |
| `WalTombstone.SettleExact` | packages/go/auditq/queue.go:408-495 | settling removes exactly one live copy of its text if and only if some kept line has this text and, when the bytes at the hint match, the line around the hint has it too, spaces around it aside; length and other bytes stay |
| `AuditMiss.SettleCanMiss` | packages/go/auditq/queue.go:441-456 | for every event inside another: a log whose batch holds the inner one at an offset that a compaction moves into the outer one, which settling then damages while the inner one stays live |
| `AuditMiss.NestedEventIsLost` | packages/go/auditq/queue.go:408-456 | and a run of the protocol that loses the outer one although it was neither accepted nor due for a dead letter |
| `WalEvents.LocateWhole` | packages/go/auditq/queue.go:441-473 | for event lines the located span is always one whole line equal to the event, by hint or by scan |
| `WalEvents.StrikeRemovesOne` | packages/go/auditq/queue.go:408-435 | a tombstone of any length removes exactly one live copy and one pending line, and the log stays well formed |
| `WalBatch.BatchExact` | packages/go/auditq/queue.go:635-687 | the batch is the first pending lines in file order, each equal to the bytes of a whole line at its offset |
| `WalBatch.BatchWithinTexts` | packages/go/auditq/queue.go:635-687 | a batch never holds more entries of a text than the log has live lines of it |
| `WalBatch.ReadIsStable` | packages/go/auditq/queue.go:533-558 | reading the file a read pass leaves gives the same batch and finds nothing more to bury |
| `AuditQueue.CompleteLines` | packages/go/auditq/queue.go:276-285 | the bytes up to the last newline are exactly the complete lines |
| `AuditQueue.CountPendingLines` | packages/go/auditq/queue.go:257-272 | the count of complete lines that are kept and readable |
| `AuditQueue.TombstoneBuffer` | packages/go/auditq/queue.go:478-495 | the buffer has the line's length, starts with a tilde and is blank after it |
| `AuditQueue.LocateLine` | packages/go/auditq/queue.go:441-473 | the hint when the bytes match there, otherwise the first matching line, with its true offset |
| `AuditQueue.CompactContent` | packages/go/auditq/compact.go:128-149 | the filter loop yields the compacted file |
| `AuditQueue.Queue.constructor` | packages/go/auditq/queue.go:210-228 | a queue over an existing file with empty memory |
| `AuditQueue.Queue.Replay` | packages/go/auditq/queue.go:232-252 | the gauge is the number of pending complete lines and the file is not changed |
| `AuditQueue.Queue.AppendWAL` | packages/go/auditq/queue.go:377-399 | a write of any length appends exactly that many bytes of seal, line and newline, and succeeds only when all arrived |
| `AuditQueue.Queue.Enqueue` | packages/go/auditq/queue.go:306-331 | the event is logged, or else queued in memory while it has room, and one of these alone raises the gauge; a wake is pending afterwards in any case |
| `AuditQueue.Queue.WriteTombstoneAt` | packages/go/auditq/queue.go:478-495 | exactly the written prefix of the tombstone replaces the bytes of the span |
| `AuditQueue.Queue.TombstoneWAL` | packages/go/auditq/queue.go:408-435 | the located line is struck; it succeeds and the gauge falls by one unless the tombstone was cut, and a line no longer there counts as settled |
| `AuditQueue.Queue.SettleDelivered` | packages/go/auditq/queue.go:739-752 | a log entry is struck and stays unsettled only when its tombstone was cut; a memory event is only taken off the gauge |
| `AuditQueue.Queue.SettleRejected` | packages/go/auditq/queue.go:755-769 | a refused event is recorded as dead if the record can be written, and in either case settled, or not, as a delivered one |
| `AuditQueue.Queue.ReadLine` | packages/go/auditq/queue.go:649-674 | one line of the read pass: buried and dead-lettered, or counted and taken, or skipped |
| `AuditQueue.Queue.ReadPending` | packages/go/auditq/queue.go:635-675 | the read loop returns the batch and the pending count and buries every unreadable line |
| `AuditQueue.Queue.TakeMemory` | packages/go/auditq/queue.go:677-686 | every event waiting in memory is taken, in order |
| `AuditQueue.Queue.ReadBatch` | packages/go/auditq/queue.go:635-687 | pending lines then memory events, with the gauge set to both counts |
| `AuditQueue.Queue.ReturnMemory` | packages/go/auditq/queue.go:773-785 | unsettled memory events go back in order while the channel has room |
| `AuditQueue.Queue.Compact` | packages/go/auditq/compact.go:112-199 | a pass that is not interrupted leaves exactly the compacted file |
| `AuditSafety.StepKeeps` | packages/go/auditq/queue.go:306-785 | every step of the protocol keeps the conservation invariant, for every text |
| `AuditSafety.RunKeeps` | packages/go/auditq/queue.go:306-785 | so does every run, from any state that satisfies it |
| `AuditSafety.InitInv` | packages/go/auditq/queue.go:232-252 | every well-formed log starts in the invariant |
| `AuditSafety.NoEventLost` | packages/go/auditq/queue.go:306-331 | in every run with crashes, appended and torn copies equal live plus settled ones and never exceed live, accepted and dead-lettered ones, and every event whose append failed is queued, held, settled or counted as lost |
| `AuditSafety.TornCopy` | packages/go/auditq/queue.go:377-399 | a failed append leaves a live copy exactly when it was cut just before its newline |
| `AuditSafety.SettleFinds` | packages/go/auditq/queue.go:408-435 | in every run, settling an answered log entry finds a whole live line with its text and replaces that line by a tombstone of its length |
| `AuditSafety.AnsweredIsLive` | packages/go/auditq/queue.go:408-473 | an open batch entry always has a live line, however appends, tombstones and compactions moved it |
| `AuditWake.WakeStep` | packages/go/auditq/queue.go:306-340 | a step loses a wake-up if and only if it is one of two: completing a readable tail while the drainer waits, or going to wait after a read that failed over pending lines |
| `AuditWake.NoWakeLost` | packages/go/auditq/queue.go:573-589 | in every run without such a step, a waiting drainer with pending work has a token or an enqueuer about to wake it |
| `AuditWake.WakeCanBeLost` | packages/go/auditq/compact.go:112-199 | for every event, a run of four steps after which it waits unannounced |
| `AuditGauge.GaugeStep` | packages/go/auditq/queue.go:306-785 | the exact amount by which every step changes the gauge's distance from the truth |
| `AuditGauge.ReadMakesExact` | packages/go/auditq/queue.go:635-687 | a read makes the gauge exact whatever it was |
| `AuditGauge.GaugeExact` | packages/go/auditq/queue.go:232-252 | in every run without torn writes, overflow or failed reads the gauge equals pending lines plus queued and held memory events |
| `AuditDrift.CutTombstoneDrifts` | packages/go/auditq/queue.go:408-435 | for every event of two bytes or more, a run after which the gauge shows one event and nothing is pending, queued or held |
| `AuditDrift.CutAppendDrifts` | packages/go/auditq/queue.go:377-399 | for every event, a run after which it is pending and not on the gauge, completed by a compaction |
| `AuditDrift.FailedReadDrifts` | packages/go/auditq/queue.go:635-647 | for every event, a run after which it is pending and not on the gauge, because a read failed |
| `AuditDrift.FullChannelDrifts` | packages/go/auditq/queue.go:773-785 | for every event and channel capacity, a run after which a lost memory event stays on the gauge |
| `AuditShutdown.PotentialStep` | packages/go/auditq/queue.go:573-629 | once closing, no step raises the sum of passes made, events outstanding and the one pass that may still start unpaid |
| `AuditShutdown.EndPassPotential` | packages/go/auditq/queue.go:573-629 | a pass that does not end the drainer has settled an event |
| `AuditShutdown.BoundedShutdown` | packages/go/auditq/queue.go:355-371 | after Close with no further enqueue the drainer makes at most one pass more than there are outstanding events |
| `AuditTermination.NeverStuck` | packages/go/auditq/queue.go:573-629 | while closing and not done, some step of the drainer or its deliveries is enabled |
| `AuditTermination.ShutdownEnds` | packages/go/auditq/queue.go:355-371 | after Close with no further enqueue every run has at most n(5n + 5) steps of the drainer beyond its current pass, for n passes still to come, and it can go on until it is done |
| `AuditTermination.ShutdownReachesDone` | packages/go/auditq/queue.go:355-371 | from every reachable closing state there is a run to the end of the drainer |
| `AuditShutdown.DelayLaw` | packages/go/auditq/queue.go:801-806 | in every run the delay is the initial one doubled per stalled round, capped at the maximum |
| `AuditCompaction.StepKeepsLines` | packages/go/auditq/compact.go:151-185 | each file operation keeps the kept lines, and replaces the log by its compaction or not at all |
| `AuditCompaction.CompactionIsCrashSafe` | packages/go/auditq/compact.go:112-199 | a crash between any two file operations, any number of times, keeps the kept lines |
| `AuditReadPass.ReadBatchIsRun` | packages/go/auditq/queue.go:635-687 | the method ReadBatch is a run of the protocol: one burial per unreadable line, then the read |
| `ImapPool.PerServicePool.EvictIdle` | apps/email-proxy/internal/pool/pool.go:119-129 | the unexpired connections are kept in order and the others closed |
| `ImapPool.PerServicePool.Get` | apps/email-proxy/internal/pool/pool.go:70-99 | expired connections are closed first; then the newest live idle connection, else a new one below the cap, else an error that leases nothing |
| `ImapPool.PerServicePool.Release` | apps/email-proxy/internal/pool/pool.go:103-116 | a healthy connection becomes idle, another is closed, and one fewer is active |
| `ImapPool.PerServicePool.CloseAll` | apps/email-proxy/internal/pool/pool.go:132-137 | exactly the idle connections are closed |
| `ImapPool.Pool.GetOrCreateServicePool` | apps/email-proxy/internal/pool/pool.go:277-299 | the pool of equal credentials is reused untouched; a rotation closes the idle ones of the old pool and starts an empty one |
| `ImapPool.Pool.Release` | apps/email-proxy/internal/pool/pool.go:237-253 | the release goes to the current pool of the key, and a key without one closes the connection |
| `ImapPool.Pool.Close` | apps/email-proxy/internal/pool/pool.go:256-265 | every idle connection of every pool is closed, and none other |
| `PoolSystem.StepKeeps` | apps/email-proxy/internal/pool/pool.go:70-137 | every critical section of every caller keeps the placement, cap and balance invariant |
| `PoolSystem.RunKeeps` | apps/email-proxy/internal/pool/pool.go:223-299 | so does every interleaving |
| `PoolSystem.EveryConnectionInOnePlace` | apps/email-proxy/internal/pool/pool.go:223-299 | in every run each dialled connection is leased, idle in one pool or closed, and exactly one of these; active counters add up to the holders |
| `PoolSystem.CapPerKey` | apps/email-proxy/internal/pool/pool.go:70-99 | a key holds at most the cap per pool it ever had, so the cap itself without rotation, and then active equals the leased clients and those closed because the key had no pool any more |
| `PoolRotation.RotationsReachBound` | apps/email-proxy/internal/pool/pool.go:277-299 | for every cap and every n, a run with n pools of a key that holds n times the cap |
| `PoolRotation.CapHoldsExactly` | apps/email-proxy/internal/pool/pool.go:70-99 | the cap per key holds in all runs with n pools if and only if n is at most one (or the cap is zero) |
| `PoolRotation.ActiveIsLeasedExactly` | apps/email-proxy/internal/pool/pool.go:70-116 | the counter of a key's pool is its number of leased clients in all runs with n pools if and only if n is at most one (or the cap is zero) |
| `PoolSystem.RotationExceedsCap` | apps/email-proxy/internal/pool/pool.go:277-299 | a run with one rotation that exceeds a cap of one and drives a counter to minus one |
| `Period.DateOfDay` | apps/proxy-plugin/internal/budget/period.go:15-48 | year, month and day of any day number are a real date that gives the number back |
| `Period.BoundsAre` | apps/proxy-plugin/internal/budget/period.go:15-48 | the calendar expressions give the bounds of the hour, day, Monday week or month, also where a day number underflows its month |
| `Period.PeriodIsShared` | apps/proxy-plugin/internal/budget/period.go:15-48 | an instant lies in a period if and only if it has the same bounds, and every instant lies in its own |
| `Period.PeriodsTile` | apps/proxy-plugin/internal/budget/period.go:15-48 | the period at the end of one starts there |
| `Period.PeriodsDisjoint` | apps/proxy-plugin/internal/budget/period.go:15-48 | two periods are equal or do not overlap |
| `Period.WeekShape` | apps/proxy-plugin/internal/budget/period.go:27-35 | a week starts on a Monday at midnight and lasts seven days |
| `Period.MonthShape` | apps/proxy-plugin/internal/budget/period.go:37-39 | a month starts on day one and lasts 28 to 31 days |
| `Budget.Counters.Upsert` | apps/proxy-plugin/internal/budget/budget.go:71-85 | the row is inserted with one use, or counted up while below its stored ceiling, and returned in these cases only |
| `Budget.Counters.Select` | apps/proxy-plugin/internal/budget/budget.go:87-113 | some row whose period holds the database time, or none when there is none |
| `Budget.Counters.Check` | apps/proxy-plugin/internal/budget/budget.go:67-114 | the verdict follows the upsert when it returns a row and the select otherwise |
| `Budget.OnlyOwnRowMatches` | apps/proxy-plugin/internal/budget/budget.go:87-113 | with one period for a permission: strictly inside a period the select can match that period's row only |
| `Budget.StartMatches` | apps/proxy-plugin/internal/budget/budget.go:87-113 | with one period for a permission: at a period's first instant the select can match the row of the period before it as well, and no other |
| `Budget.RunKeeps` | apps/proxy-plugin/internal/budget/budget.go:67-114 | every interleaving of the two statements of any number of checks, with any database clock and any period on each check, keeps the counting invariant |
| `Budget.BudgetIsExact` | apps/proxy-plugin/internal/budget/budget.go:67-114 | of n checks exactly the smaller of n and the first check's ceiling pass beside the leaked ones, and the row counts exactly these |
| `Budget.LeaksExactly` | apps/proxy-plugin/internal/budget/budget.go:87-113 | in every run, after a refused upsert: the select lets the check pass if and only if it returns another period's row with room, and it can at an instant if and only if the table holds such a row that includes the instant |
| `Budget.OnePeriodLeaks` | apps/proxy-plugin/internal/budget/budget.go:67-113 | while all checks of a permission carry one period and the clock is in the period of the upsert, that is if and only if the clock reads its first instant and the row just ended has room |
| `Budget.CeilingIsKept` | apps/proxy-plugin/internal/budget/budget.go:67-114 | nothing of a permission leaks in a run in which its checks carry one period and its selects stay strictly inside theirs, whatever others do |
| `Budget.OlderRowLeaks` | apps/proxy-plugin/internal/budget/budget.go:87-113 | for any two periods and instants such that the first period includes the second instant and they start apart, and every n, a run in which n + 1 checks pass under a ceiling of one while the row counts one |
| `Budget.BoundaryLeaks` | apps/proxy-plugin/internal/budget/budget.go:87-113 | for every period, instant and n, such a run without a change of period |
| `Budget.ChangedPeriodLeaks` | apps/proxy-plugin/internal/budget/budget.go:67-113 | for every n, such a run from daily to hourly checks at every instant after the first hour of a day |
| `Budget.CeilingBelowOne` | apps/proxy-plugin/internal/budget/budget.go:71-85 | with a ceiling below one the first check passes all the same |
| `RateLimit.PruneInPlace` | apps/email-proxy/internal/security/ratelimit.go:87-94 | the in-place loop over the shared array keeps exactly the later instants, in order |
| `RateLimit.RateLimiter.Allow` | apps/email-proxy/internal/security/ratelimit.go:75-104 | a zero limit denies without a trace; otherwise the decision and the new window follow the pruned one |
| `RateLimit.CountAgrees` | apps/email-proxy/internal/security/ratelimit.go:87-94 | in every run with any clock readings, the pruned list counts the caller's minute as the whole history does if and only if no pruned call lies in that minute |
| `RateLimit.DecisionAgrees` | apps/email-proxy/internal/security/ratelimit.go:75-104 | with an ordered clock the decision equals counting the whole history |
| `RateLimit.LimiterIsExact` | apps/email-proxy/internal/security/ratelimit.go:75-104 | every ordered run allows exactly the calls the whole history allows |
| `RateLimit.DeniedUsesNoQuota` | apps/email-proxy/internal/security/ratelimit.go:96-104 | leaving a denied call out of a run changes none of the other decisions |
| `RateLimit.NoMinuteExceedsLimit` | apps/email-proxy/internal/security/ratelimit.go:75-104 | no half-open minute anywhere in time holds more allowed calls than the limit |
| `RateLimit.BackwardClockExceeds` | apps/email-proxy/internal/security/ratelimit.go:75-104 | four calls with a clock that steps back put three in one minute under a limit of two |
| `RateLimit.KeysAreDistinct` | apps/email-proxy/internal/security/ratelimit.go:80 | without a NUL in the agent, keys are equal for equal pairs only |
| `RateLimit.PairsDoNotInterfere` | apps/email-proxy/internal/security/ratelimit.go:75-104 | in every run the decisions for a pair are those of the run with this pair's calls alone |
| `Jwks.Cache.Refresh` | apps/email-proxy/internal/auth/jwks.go:98-153 | skipped within 30 s; a rejected document changes nothing; an accepted one gives the last key of each id and nothing else |
| `Jwks.Cache.BeginForce` | apps/email-proxy/internal/auth/jwks.go:83-94 | throttled within 5 s of the last force, otherwise the next refresh is let through |
| `Jwks.Cache.GetKey` | apps/email-proxy/internal/auth/jwks.go:53-77 | when a key is returned, from which state of the cache, and how old its fetch is on either path |
| `Jwks.RunKeeps` | apps/email-proxy/internal/auth/jwks.go:83-153 | every interleaving keeps both limits and keeps the cache equal to the latest successful fetch |
| `Jwks.CloseFetchesWereForced` | apps/email-proxy/internal/auth/jwks.go:83-153 | two successful fetches less than 30 s apart have an unthrottled force between them |
| `Jwks.FetchesAreLimited` | apps/email-proxy/internal/auth/jwks.go:83-153 | any stretch of W seconds has at most W/30 + W/5 + 2 successful fetches and W/5 + 1 unthrottled forces |
| `Jwks.FailuresAreNotLimited` | apps/email-proxy/internal/auth/jwks.go:98-153 | whenever the last fetch is not recent, n calls at one instant make n requests when they fail |
| `Jwks.UnknownKeyWaits` | apps/email-proxy/internal/auth/jwks.go:65-77 | in every reachable state without the key id, the refresh of GetKey makes a request if and only if no successful fetch of the last 30 s is left unforced, and otherwise changes neither log nor keys, whatever the endpoint would answer |
| `Jwks.KnownUpstreamStaysUnknown` | apps/email-proxy/internal/auth/jwks.go:65-77 | two calls within 30 s of which the second makes no request, for any answer the endpoint has for it |
| `Jwks.FastPathIsFresh` | apps/email-proxy/internal/auth/jwks.go:53-63 | in every interleaving a cached key is from the latest successful fetch, at most five minutes old |
| `Jwks.SlowPathIsFresh` | apps/email-proxy/internal/auth/jwks.go:65-77 | after a refresh without error, whatever other callers do, the key is from the latest successful fetch, less than 30 s older than the refresh's own clock reading |
| `WireIds.EncodeWords` | apps/kong-syncer/internal/wireids/encode.go:68-76 | shifting five bits at a time across two words gives the base-32 digits of the 128-bit value |
| `WireIds.ReadWord` | apps/kong-syncer/internal/wireids/encode.go:52-58 | eight bytes give their big-endian value and the word never overflows |
| `WireIds.DBUUIDToWire` | apps/kong-syncer/internal/wireids/encode.go:37-79 | accepts exactly 32 hexadecimal digits with any dashes, and writes the 26 digits of the number they denote |
| `WireIds.DecodeCrockford` | apps/proxy-plugin/internal/wireid/wireid.go:60-79 | the decoding loop gives the value of the token, masked to 128 bits, in padded lowercase hexadecimal |
| `WireIds.PaddedIs` | apps/proxy-plugin/internal/wireid/wireid.go:74-77 | the shortest hexadecimal text padded with zeros is the fixed-width one |
| `WireIds.DecodeEncoded` | apps/proxy-plugin/internal/wireid/wireid.go:26-50 | the proxy plugin decodes every id of the Kong syncer to the UUID it was made from |
| `WireIds.EncodeDecoded` | apps/proxy-plugin/internal/wireid/wireid.go:60-79 | encoding a decoded id gives it back if and only if its token is uppercase and starts with 0 to 7 |
| `WireIds.DecodeIsIdempotent` | apps/proxy-plugin/internal/wireid/wireid.go:26-58 | whatever form is decoded, the result is a canonical UUID that decodes to itself |
| `WireIds.WireIsInjective` | apps/kong-syncer/internal/wireids/encode.go:37-79 | two UUIDs have the same id if and only if they are the same UUID |
| `WireIds.WireOrder` | apps/kong-syncer/internal/wireids/encode.go:68-78 | ids sort as strings exactly as their UUIDs do as numbers, and tokens start with 0 to 7 |
| `Kong.FetchActiveServices` | apps/kong-syncer/internal/changes/subscriber.go:528-546 | every row with its id in wire form, or an error if and only if some UUID is malformed |
| `Kong.Generate` | apps/kong-syncer/internal/kong/yaml.go:77-110 | one service per entry in order, with its path route, virtual-host route and headers |
| `Kong.Reconcile` | apps/kong-syncer/internal/changes/subscriber.go:452-463 | the configuration of all rows, or an error if and only if some UUID is malformed |
| `Kong.PathsAreUnambiguous` | apps/kong-syncer/internal/kong/yaml.go:89-100 | no request path is taken by two services, so no route path is a prefix of another |
| `Kong.CallsReachTheirRow` | apps/kong-syncer/internal/kong/yaml.go:53-100 | a call path reaches its own row only, and the service name decodes to that row's UUID |
| `Kong.NamesAreDistinct` | apps/kong-syncer/internal/kong/yaml.go:84-107 | no two services and no two routes share a name |
| `Kong.HostsAreDistinct` | apps/kong-syncer/internal/kong/yaml.go:101-106 | for slugs without a dot, and for tenants without a dot, hosts are equal for equal slug and tenant only |
| `Kong.HostIsSharedExactly` | apps/kong-syncer/internal/kong/yaml.go:101-106 | a pair of slug and tenant shares its host with another pair if and only if one of the two has a dot |
| `Kong.DottedSlugsCollide` | apps/kong-syncer/internal/kong/yaml.go:101-106 | every slug with a dot shares its host with another slug |
| `Kong.DottedTenantsCollide` | apps/kong-syncer/internal/kong/yaml.go:101-106 | every tenant with a dot shares the host of each slug with another tenant |
| `Kid.Emit` | apps/broker/internal/keyloader/loader.go:33-36 | the inner loop writes the next base-32 digits of the bits read so far, up to 26 |
| `Kid.AccumulatorDigit` | apps/broker/internal/keyloader/loader.go:31-35 | the 32-bit accumulator loses no bit that is still to be read |
| `Kid.KidFromDigest` | apps/broker/internal/keyloader/loader.go:25-42 | the id is the 26 base-32 digits of the first 130 bits of the digest |
| `Kid.KidCharacter` | apps/broker/internal/keyloader/loader.go:25-42 | the id has 26 characters after its prefix, and character i is digest bits 5i to 5i+4 |
| `Kid.KidIsLeadingBits` | apps/broker/internal/keyloader/loader.go:25-42 | two digests share an id if and only if their first 130 bits agree |
| `Retry.NextSleep` | apps/kong-syncer/internal/changes/subscriber.go:311-324 | a wait is three to five quarters of the back-off, or exactly what is left of the budget |
| `Retry.Wait` | apps/kong-syncer/internal/changes/subscriber.go:311-341 | one wait keeps the budget and the jitter of all earlier ones, moves the clock on, and doubles the back-off up to its cap |
| `Retry.InitialReconcile` | apps/kong-syncer/internal/changes/subscriber.go:287-343 | it ends; how each outcome comes about; the waits add up to at most the budget, and only the last can be cut; without a budget it is never exhausted |
| `Retry.BackoffLaw` | apps/kong-syncer/internal/changes/subscriber.go:337-341 | the k-th back-off is the base times two to the k, capped at 256 s |
| `Retry.AttemptsAreBounded` | apps/kong-syncer/internal/changes/subscriber.go:304-324 | a budget M and base B admit at most 4M/(3B) + 2 attempts |
| `ScopeClaims.CheckScopeClaims` | apps/proxy-plugin/cmd/proxy-plugin/scope_claims.go:12-49 | no refusal if and only if both claims admit the call, and which refusal otherwise, for claims of any JSON shape |
| `ScopeClaims.HasDots` | apps/proxy-plugin/cmd/proxy-plugin/scope_claims.go:38-42 | the segment scan finds a dot segment if and only if there is one |
| `ScopeClaims.WithinIsBySegments` | apps/proxy-plugin/cmd/proxy-plugin/scope_claims.go:43-45 | an admitted path is the prefix, or extends it by whole segments, and conversely |
| `ScopeClaims.WithinIsTransitive` | apps/proxy-plugin/cmd/proxy-plugin/scope_claims.go:43-45 | a prefix below another admits nothing the other refuses |
| `ScopeClaims.NormalIffNoDots` | apps/proxy-plugin/cmd/proxy-plugin/scope_claims.go:38-42 | a rooted path is unchanged by section 5.2.4 of RFC 3986 if and only if it has no dot segments |
| `ScopeClaims.AdmittedIsNormal` | apps/proxy-plugin/cmd/proxy-plugin/scope_claims.go:33-46 | an admitted path is already normal, so it stays below the prefix when normalised |

## Left out

- JSON, YAML, SHA-256, Ed25519 and base64 are abstract: events satisfy the stated assumptions, documents arrive parsed, digests and keys are byte sequences.
- HTTP, the database, the file system's errors and the clock are outcomes and readings that a step or a parameter carries.
- White space in log lines is ASCII white space only, and a missing log file is an empty one.
- The drain loop is a state machine of its critical sections and not a method, because other threads run between them.
- Order of delivery and starvation: a batch takes the first pending lines, so an event that keeps failing can delay later ones, and no such claim is made.
- Which credentials a pooled client was dialled with: a client leased before a rotation is returned to the new pool.
- Budget checks while the database fails, and edits of counter rows by an administrator (a new ceiling, a reset count).
- AuditQueue.Queue.AppendWAL: the look at the file's last byte is assumed to succeed; when it fails the source appends without the newline that closes a torn line.
- AuditQueue.Queue.ReadLine: the tombstone and the dead-letter record of an unreadable line are assumed to be written; the protocol's burial step also has the cases where they are not.
- AuditQueue.Queue.ReadPending: the same assumption for every line of the pass.
- AuditQueue.Queue.ReadBatch: the same assumption, and the log is assumed to be readable; the protocol also has the step where it is not.
- Jwks.Cache.GetKey: the contract is for one caller alone; FastPathIsFresh and SlowPathIsFresh are for every interleaving.
- RateLimit.RateLimiter.Allow: the windows hold sequences; the sharing of one array between old and new window is modelled in PruneInPlace only.
- WireIds.DecodeCrockford: strings are ASCII, so letters outside it whose upper case is an alphabet letter are not modelled.
- Retry.InitialReconcile: a run without a budget is modelled when it ends, by success or by the context.
- Machine words in the encoders are integers with explicit remainders; a bitwise or of disjoint bits is written as a sum.
- Metrics, logging, environment parsing and the compaction timer.
- The audit verification job, the Go audit emitter, the OAuth2 token cache, the admin API and UI, the MCP server, the broker's grants and the seed job.
