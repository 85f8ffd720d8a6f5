# Matter data logger: a verified model

The program polls the power meters it discovers on the network, passes their readings through a
bounded channel to a data writer, and hands them to storage; while storage fails, readings go to a
directory of cache files and are replayed later. This project models that path in Dafny and proves
what happens to every reading on it.

`dafny verify dfyconfig.toml` checks the project.

| file | models |
|---|---|
| `Breaker.dfy` | the circuit breaker: the class, its runs, its history-based specification, the bound on calls during an outage |
| `CacheNames.dfy` | attempt identifiers and cache file names |
| `LocalCache.dfy` | the cache directory and its size counter: the class, and laws over every sequence of operations |
| `StoreForward.dfy` | `WriteReading` callers and the replay goroutine as one transition system |
| `Replay.dfy` | what a replay pass and a whole recovery achieve, and when a cached reading escapes them |
| `CachingOrder.dfy` | from the times of caching to the order of replay |
| `CachingStorage.dfy` | the class over that system; each method is proved to be a legal run of it |
| `Monitor.dfy` | device goroutines, wait group, `Stop`, readings channel and data writer as one transition system; one goroutine per device |
| `Shutdown.dfy` | closing the channel, the sweep of `Stop`, and the end of its wait, with exact conditions |
| `Readings.dfy` | what becomes of the readings on the channel |
| `PowerMonitor.dfy` | the class over the system of `Monitor.dfy` |
| `Pipeline.dfy` | the two systems side by side, from device to storage |
| `FluxText.dfy` | escaping text for Flux literals, and the query built from it |
| `RetryQueue.dfy` | the retry queue with exponential backoff |
| `Basics.dfy` | small definitions several modules share |
| `Discovery.dfy`, `App.dfy` | what a scan makes of its entries, and the hand-over to the monitor |

## How the model is built

Concurrency is modelled by atomic steps: a stretch of code under one lock, one call into storage or
the file system, one channel operation. An action carries what the environment decided (did storage
accept, how did the file write end, which files could be read, what does the clock say), and a
theorem about every sequence of enabled actions is a theorem about every interleaving.

The classes follow the source's methods statement by statement. `CachingStorage`, `PowerMonitor` and
`RetryWorker` carry a ghost field `world`, a state of the corresponding transition system, and their
contracts say which steps of that system the method takes. The theorems over all runs therefore
speak about the methods.

Assumptions, all of them hypotheses of the statements that need them:

- Every reading has its own tag, which names the call that submitted it. The code does not look at it.
- Conservation of readings assumes that no cache write lands on the name of an entry, and
  `StoreForward.AlwaysConservedIff` shows that this is exactly what it needs.
  `StoreForward.FreshAttemptsAreLegal` derives it from attempts that differ in clock reading or device.
- A cache entry that can be read parses back to what was written. A write may be torn, or be complete
  and reported as failed; the exact size of the counter is claimed for runs without these, and its
  exact error for runs with them.
- A storage error means the reading was not stored; a nil error means it was handed over.
- `CleanupOld` runs only at construction, as in the source.
- Channel capacity and both breaker thresholds are at least 1, and the reset timeout is positive.
- The goroutine theorems exclude just what breaks them, and say so by exact conditions: a goroutine
  made after the last Done has released the wait of `Stop` (`Shutdown.PanicsIffLate`), one made beside
  a live one of the same device (`Monitor.AlwaysUniqueIff`), and either of that or a start after `Stop`
  has begun (`Shutdown.MissesIffUndisciplined`). The program does not rule such starts out: main.go:388-390
  calls `Stop` before it cancels the context, so a discovery tick may still start a device, and
  `Shutdown.LateStartsHappen` gives runs in which that is late.
- The wait group is that of Go 1.24 (go.mod:3). A waiter released by the last Done panics if it finds
  the counter above zero when it runs. The Done that reaches zero and the release it causes are one
  step; a start in between, where Add itself panics, counts as one just after it.

Where the code and its documentation disagree the model follows the code:

- The package comment says cached readings are replayed when connectivity is restored. That holds of
  every entry the ticks can see. An entry escapes them in three ways only: an earlier process left it,
  the replayer lowered the flag over it, or a slow caller wrote it after the flag went down
  (`Replay.AlwaysGuardedIff`); it then waits for the next failed write.
  `Replay.RecoveryEmptiesIff` and `Replay.LateWriteWaitsForNextFailure` show the second and third.
- `NewCachingStorage` never sets the breaker that `WriteReading` calls, and main.go:179 builds the
  storage that way, so the first `WriteReading` of the program as it stands dereferences a nil breaker.
  The model takes the breaker as a constructor argument, and every theorem that involves
  `WriteReading`, the end-to-end one included, speaks of a program that is given one.
- The discovery comments name the TXT key `CL`; the code reads `C`. A repeated TXT key keeps its last
  value, where section 6.4 of RFC 6763 keeps the first.
- `GetDeviceID` is said to return a unique identifier; `Discovery.IDsCollideIff` says when two devices
  share one.
- The Flux comments speak of 1000 characters; the code cuts at 1000 bytes. They also say that the
  sanitised text is always read as a literal string; the code leaves `${` alone, which Flux reads as
  the start of an expression (`FluxText.QueryKeepsStructureIff`).
- The breaker's probe from Open is not counted towards closing it, so recovery takes one more call
  than `halfOpenSuccessThreshold`; and a failed probe can leave the breaker half open when the failure
  counter had been reset (`Breaker.FailedProbeStaysHalfOpenIff`, with an example in
  `Breaker.FailedProbeWitness`).

## Model

| member | source | states |
|---|---|---|
| Breaker.CircuitBreaker.constructor | storage/circuit_breaker.go:42-49 | a new breaker is Closed with no failures |
| Breaker.CircuitBreaker.Execute | storage/circuit_breaker.go:52-93 | one call changes phase, counters, time and error, and replies, as the step function on the fields says |
| Breaker.CountersAreHistory | storage/circuit_breaker.go:29-39 | in every reachable state each counter is a run length of the observed history: failures since the last success, half-open successes in a row, time and error of the last trip; both counters stay below their thresholds outside Open |
| Breaker.ExecuteRefinesHistory | storage/circuit_breaker.go:52-93 | on every run, each call's reply and phase change are determined by the history of replies alone, with no counter |
| Breaker.ChangesByRuns | storage/circuit_breaker.go:64-89 | the phase changes of a call are decided by the runs of closed failures and half-open successes that end with it |
| Breaker.TripsOnExactRun | storage/circuit_breaker.go:80-89 | a closed breaker opens on a call if and only if that call is the last of exactly failureThreshold consecutive failures met while Closed |
| Breaker.ClosesOnExactRun | storage/circuit_breaker.go:64-77 | the breaker re-enters Closed if and only if the last halfOpenSuccessThreshold calls all succeeded while HalfOpen |
| Breaker.ClosingRunFollowsProbe | storage/circuit_breaker.go:57-77 | the closing run is preceded by the probe that left Open, which is not counted in it |
| Breaker.FailedProbeStaysHalfOpenIff | storage/circuit_breaker.go:57-89 | a failed probe leaves the breaker half open if and only if fewer than failureThreshold failures, this one included, are counted since the last reset |
| Breaker.FailedProbeWitness | storage/circuit_breaker.go:57-89 | five calls after which that has happened |
| Breaker.Amortised | storage/circuit_breaker.go:52-93 | while every invocation fails, invocations beyond the remaining allowance have each been paid for by a full reset timeout |
| Breaker.OutageCallBound | storage/circuit_breaker.go:52-93 | from any reachable state, a stretch of failing calls of duration D invokes the function at most failureThreshold + floor(D / resetTimeout) times |
| CacheNames.AttemptIDInjective | storage/cache.go:180-184 | the attempt identifier determines clock reading and device identifier |
| CacheNames.FileOfAttemptInjective | storage/cache.go:338-340 | two attempts share a file if and only if they have the same clock reading and device |
| CacheNames.FileNameIsGlobbed | storage/cache.go:110-111 | the file of an attempt is one the listing's pattern finds, and its name reads as clock, underscore and device |
| LocalCache.LocalCache.constructor | storage/cache.go:135-168 | 100 MB and 24 hours by default; fresh and unparsable files stay as they were, no readable, removable entry older than the limit is left, and nothing else is there; the size is counted before the removal, so it is short by exactly the files that could not be examined |
| LocalCache.LocalCache.UpdateCurrentSize | storage/cache.go:318-335 | the counter becomes the total of the files that could be examined |
| LocalCache.LocalCache.Write | storage/cache.go:171-204 | refused exactly when full or when the disk failed; the counter grows by the size exactly when not refused; only the attempt's own file changes, under a name the listing finds, and it holds the entry if the write was complete |
| LocalCache.LocalCache.ListCachedReadings | storage/cache.go:207-239 | exactly the entries of the readable files, as many as there are such files, sorted by time of caching |
| LocalCache.LocalCache.DeleteCached | storage/cache.go:242-262 | removes exactly the named file and its size, or fails and changes nothing |
| LocalCache.LocalCache.CleanupOld | storage/cache.go:265-303 | every unparsable file and every entry not older than the limit is still there unchanged, no readable, removable older one is left, and the counter falls by the bytes removed |
| LocalCache.InsertByTime | storage/cache.go:233-236 | the listing with one entry more is a sorted permutation of the old listing and that entry, and still accounts for every file |
| LocalCache.ListedIsExact | storage/cache.go:211-238 | an accounted listing holds exactly the readable entries, and as many elements as there are readable files |
| LocalCache.SizeAccounting | storage/cache.go:171-303 | over every sequence of operations the counter is off by exactly the bytes of replaced files less the bytes that failed writes left |
| LocalCache.CounterExactIffNothingReplaced | storage/cache.go:171-303 | when every write is all or nothing and reported as such, the counter is never below the files' total, and equals it if and only if no write replaced a non-empty file |
| LocalCache.SizeBound | storage/cache.go:175-196 | the counter never exceeds the larger of its start and maxSize - 1 plus the largest entry written |
| StoreForward.NothingLost | storage/cache.go:393-582 | in every interleaving, stored count plus on-disk count equals one if owed, plus failed deletes, plus the entry in the replayer's hand; owed are the accepted readings, each on disk once or stored, and refused ones whose file was written although an error was reported; any other refused reading is nowhere |
| StoreForward.UnreportedOnly | storage/cache.go:192-194 | only a write that reported an error after writing everything makes a refused reading owed |
| StoreForward.ConservedIff | storage/cache.go:180-192 | a step keeps all readings accounted for if and only if it is not a cache write over an entry |
| StoreForward.AlwaysConservedIff | storage/cache.go:180-192 | over every interleaving, readings stay accounted for throughout if and only if no cache write lands on an entry's name |
| StoreForward.FreshAttemptsAreLegal | storage/cache.go:180-192 | attempts that differ in clock reading or device never write over anything: nothing is lost and the size counter stays exact |
| StoreForward.EdgesAlternate | storage/cache.go:405-517 | failure and recovery edges of the flag strictly alternate, the flag is up after an odd number of them, and the replayer's clear always finds it up |
| StoreForward.SizeStaysExact | storage/cache.go:171-262 | in every interleaving with all-or-nothing writes the size counter is never below the files' total, equals it if and only if no write replaced a non-empty file, and stays within one entry of maxSize |
| StoreForward.BreakerSeesOnlyAttempts | storage/cache.go:395-397 | after any run the breaker is where the writers' attempts alone, in order, would have brought it; replay bypasses it |
| StoreForward.ReplayNeedsHealth | storage/cache.go:489-511 | over every interleaving nothing is replayed before a tick that finds storage healthy and the flag up |
| StoreForward.CachedAfterFlag | storage/cache.go:393-421 | a reading is cached only after its call has tried storage and then seen to the flag |
| StoreForward.OutageBoundsWriters | storage/cache.go:395-400 | however many writers share the breaker, an outage of duration D lets them reach storage at most failureThreshold + floor(D / resetTimeout) times |
| Replay.PassEffect | storage/cache.go:548-570 | a pass over a listing is a legal run: storage gets the written readings in listing order, and exactly the entries both written and removed leave the disk |
| Replay.PassAmongCallers | storage/cache.go:548-570 | at every point of a pass, whatever callers do between its steps, replay has logged the written readings in listing order, and exactly the files of entries written and removed went away |
| Replay.ReplayOrderAmongCallers | storage/cache.go:532-582 | in every legal run from a listing to the end of its pass, the readings logged by replay are the written ones in listing order, the files gone are those written and removed, and the failed deletes are the rest of the written ones |
| CachingOrder.CachedWhen | storage/cache.go:180-184 | over every interleaving, each entry of a reading carries the time of the cache write that made it |
| CachingOrder.ReplayedAsCached | storage/cache.go:233-236 | over every interleaving, of two readings a pass has logged, the one logged first was not cached after the other, by the times of their cache writes |
| Replay.RecoveryEffect | storage/cache.go:482-517 | an undisturbed recovery lowers the flag, appends the written readings in the order of caching, and leaves breaker, calls and counter accuracy alone |
| Replay.RecoveryEmptiesIff | storage/cache.go:532-582 | the recovery leaves no entry on disk if and only if every entry was readable, written and removed |
| Replay.GuardedIff | storage/cache.go:405-517 | where entries on disk imply a raised flag, a step keeps that if and only if it neither lowers the flag over an entry nor puts an entry on disk under a lowered flag |
| Replay.AlwaysGuardedIff | storage/cache.go:405-517 | over every interleaving from a start, no entry is ever out of the ticks' sight if and only if none was left by an earlier process and no such step occurs |
| Replay.LateWriteWaitsForNextFailure | storage/cache.go:405-421 | a run that ends with an accepted reading on disk that ticks ignore |
| CachingStorage.CachingStorage.constructor | storage/cache.go:367-389 | starts with the flag down and whatever the directory holds |
| CachingStorage.CachingStorage.WriteReading | storage/cache.go:393-437 | a legal run of the system; errs exactly when the guarded write failed and the cache write failed; a file it leaves holds the reading, the time and the size given, and no other file changes; does not touch storage while the breaker is Open within its timeout |
| CachingStorage.FitsIffLegal | storage/cache.go:393-421 | an uninterrupted call is a legal run if and only if its tag is new and, should it have to write a file, no entry has that name |
| CachingStorage.CachingStorage.WriteBatch | storage/cache.go:441-448 | an error at index i means the readings before i were accepted, i was refused, and exactly the first i + 1 were attempted |
| CachingStorage.FreshBatchFits | storage/cache.go:441-448 | new readings with different, unused file names can always be batched |
| CachingStorage.CachingStorage.SendAndDelete | storage/cache.go:548-564 | one listed entry: the file is deleted only after storage took the reading |
| CachingStorage.CachingStorage.ReplayEntry | storage/cache.go:548-570 | the same with the success counter, flushing when it completes a batch |
| CachingStorage.CachingStorage.ReplayListed | storage/cache.go:545-573 | success + failed = total, floor(success / 100) + 1 flushes on a non-empty listing, everything flushed at the end |
| CachingStorage.CachingStorage.ReplayCachedData | storage/cache.go:532-582 | sends the sorted listing in order, removes exactly the entries written and deleted, leaves the breaker alone |
| CachingStorage.CachingStorage.MonitorTick | storage/cache.go:482-517 | one iteration is a whole recovery run, or changes nothing if the flag is down, storage is unhealthy or the listing fails |
| Monitor.OneGoroutinePerDevice | monitoring/power.go:117-191 | in every run without single-device stops the map is in bijection with the goroutines that have not cleaned up: at most one per device, and the wait group counts the goroutines not yet done and is never below the map size |
| Monitor.UniqueKeptIff | monitoring/power.go:117-152 | a step keeps at most one live goroutine per device if and only if it does not start an unmapped device whose former goroutine is still alive |
| Monitor.AlwaysUniqueIff | monitoring/power.go:117-191 | over every run, single-device stops included, each device has at most one live goroutine throughout if and only if no such start occurs |
| Monitor.MappedCounts | monitoring/power.go:163-167 | the map never has more entries than there are live goroutines, and equally many if the two match |
| Monitor.LeavesOnlyCancelled | monitoring/power.go:193-201 | in every run a goroutine leaves its loop only after its context was cancelled |
| Shutdown.ChannelIsSafe | monitoring/power.go:267-288 | in every run that makes no goroutine after the wait of Stop was released, nothing panics; the channel is closed at most once, only when all goroutines are done, and never sent on afterwards |
| Shutdown.LateStartCanPanic | monitoring/power.go:117-140 | in every run, making a goroutine after the wait was released can be continued to a panic: of the woken wait, or of a send on the closed channel |
| Shutdown.PanicsIffLate | monitoring/power.go:117-288 | as long as no goroutine was made so late, an action opens the way to a panic (wait group reuse, negative counter, second close, send after close) without another late start if and only if it is one itself |
| Shutdown.LateStartsHappen | monitoring/power.go:267-288 | two runs of a new monitor, without and with a goroutine to wait for, after which any start is late |
| Shutdown.SweepReachesIff | monitoring/power.go:275-279 | the sweep leaves no live goroutine uncancelled if and only if each was in the map or cancelled before |
| Shutdown.StopReachesAll | monitoring/power.go:117-191 | with single-device stops allowed, in every run that makes no goroutine beside a live one of its device or after Stop has begun: one live goroutine per device, each mapped or cancelled, and Stop's sweep reaches every live one |
| Shutdown.MissesIffUndisciplined | monitoring/power.go:117-288 | as long as that has been kept, an action opens the way to a Stop that misses a goroutine, without another breach, if and only if it breaches it |
| Shutdown.RestartEscapesStop | monitoring/power.go:143-189 | after every premature restart the old goroutine's cleanup can delete the new one's map entry, and Stop then misses the new one |
| Shutdown.RestartWitness | monitoring/power.go:143-189 | a run from a new monitor that ends with the second goroutine alive, its map entry gone, and Stop not reaching it |
| Shutdown.ShutdownTerminates | monitoring/power.go:275-283 | after the sweep the goroutines take at most five steps for each one the wait group counts; until it is zero some goroutine can step, and then the wait returns |
| Readings.EveryReadingAccounted | monitoring/power.go:215-220 | in every run each produced reading is exactly one of dropped, buffered and taken; taken and buffered ones keep the order of production; each taken one causes one write |
| Readings.ReadingsAreGenuine | monitoring/power.go:203-220 | in every run each reading on the channel names its sender's device, and each goroutine's readings are the values it read, in the order it read them, but for one it may still have to send |
| Readings.DroppedOnlyWhenFull | monitoring/power.go:215-220 | each dropped reading was sent into a full buffer |
| Readings.WriterDrainsChannel | main.go:219-241 | a data writer that leaves on the closed channel has written every reading that was not dropped, once and in order |
| Readings.ExitedTakesNothing | main.go:222-228 | a data writer that has left takes and writes nothing more |
| PowerMonitor.PowerMonitor.constructor | monitoring/power.go:97-105 | a new monitor is an initial state of the system |
| PowerMonitor.PowerMonitor.StartMonitoringDevice | monitoring/power.go:117-140 | takes the start step; true exactly if the device was not monitored; one live goroutine per device is kept exactly unless it started beside a live one |
| PowerMonitor.PowerMonitor.StartAll | monitoring/power.go:108-114 | from any state, every named device is monitored afterwards; old goroutines are untouched and one is made for exactly the named devices that were not monitored |
| PowerMonitor.StartedUniqueIff | monitoring/power.go:108-140 | afterwards each device has one live goroutine if and only if no named, unmonitored device still had a live one |
| PowerMonitor.StartedKeepsMatch | monitoring/power.go:108-140 | where the map matched the live goroutines it still does |
| PowerMonitor.PowerMonitor.StopMonitoringDevice | monitoring/power.go:143-152 | takes the single-device stop step |
| PowerMonitor.PowerMonitor.IsMonitoring | monitoring/power.go:155-160 | yes means a live goroutine serves the device; no means none does, or, after single-device stops, that those which do have been cancelled |
| PowerMonitor.PowerMonitor.GetMonitoredDeviceCount | monitoring/power.go:163-167 | at most the number of live goroutines, which is at most the wait group's count; equal if map and goroutines match |
| PowerMonitor.PowerMonitor.BeginStop | monitoring/power.go:267-280 | the first caller cancels every monitored goroutine, which leaves no live one uncancelled exactly if each was mapped or cancelled; later callers change nothing |
| PowerMonitor.PowerMonitor.FinishStop | monitoring/power.go:282-287 | the wait panics exactly if it was woken and the counter has risen again; otherwise every goroutine is done and the channel is closed, once and without a panic |
| Pipeline.EveryReadingIsSomewhere | main.go:215-243 | end to end: a produced reading was dropped by a full channel, is in the channel, in the data writer's call, refused, in one cache file, or stored, and is nowhere else but for copies that failed deletes explain; a refused one whose file was written all the same counts by its file |
| Pipeline.ContentsArrive | main.go:229 | over every joint run, whatever of this process has reached a call, storage or a cache file holds the device and the value of the reading produced under its tag |
| Pipeline.StoredAsRead | monitoring/power.go:203-220 | from device to storage: that value is one that a goroutine of that device read |
| Pipeline.HeadIsFresh | main.go:219-229 | the head of the channel has never been submitted, so the data writer can always take it and submits nothing twice |
| FluxText.SanitizeIsOnePass | storage/influxdb.go:407-429 | the five rewrites equal one left-to-right escaping pass over the first 1000 bytes |
| FluxText.SanitizedLiteralReadsBack | storage/influxdb.go:407-429 | as far as quotes and backslash escapes go, the text between quotes ends exactly at the added closing quote and reads back as the first 1000 bytes without NULs |
| FluxText.LiteralIsPrefix | storage/influxdb.go:409-411 | the value read back is the whole input, or its first 1000 bytes if it is longer, less the NULs |
| FluxText.SanitizeCollidesIff | storage/influxdb.go:407-429 | two inputs give the same text if and only if their first 1000 bytes agree up to NULs |
| FluxText.SanitizedIsTame | storage/influxdb.go:421-426 | no raw newline, carriage return or NUL is left, and the length is at most twice min(length, 1000) |
| FluxText.EscapedInterpolatesIff | storage/influxdb.go:407-429 | a sanitised text opens an interpolated expression if and only if its kept bytes hold `${` |
| FluxText.LexAssembled | storage/influxdb.go:444-450 | splitting a text at its literals undoes assembling it, for any number of them, unless one interpolates |
| FluxText.QueryKeepsStructureIff | storage/influxdb.go:432-450 | the query is the same code around three literals with their values if and only if neither bucket nor device identifier, cut to 1000 bytes and without NULs, holds `${` |
| FluxText.ExpressionComesThrough | storage/influxdb.go:407-450 | an identifier that is an interpolated expression comes through unchanged, and the query is then no such text |
| RetryQueue.ComputeBackoff | storage/influxdb.go:299-307 | the doubling loop gives 1, 2, 4, 8, 16 and from five attempts on 30 seconds |
| RetryQueue.EveryItemIsBounded | storage/influxdb.go:287-358 | however enqueueing interleaves, an item is written at most 3 times and waits at most 15 s, and one given up used all of both |
| RetryQueue.FatesAreEarned | storage/influxdb.go:316-355 | however enqueueing interleaves, an item's books count its writes; it is delivered exactly if one of them succeeded, once, and dropped early exactly if one failed while the queue was full |
| RetryQueue.SettleLowersLoad | storage/influxdb.go:316-355 | each iteration strictly lowers the number of settlements still possible |
| RetryQueue.RetryWorker.ProcessNext | storage/influxdb.go:294-355 | one iteration takes the head, waits its capped exponential backoff, and requeues it last only if a permitted write failed |
| RetryQueue.RetryWorker.ProcessRetries | storage/influxdb.go:287-358 | with nothing entering, the loop empties the queue within the initial load; each item is delivered or was written three times |
| Discovery.TwoNeedlesDecide | discovery/discovery.go:74-86 | the four cluster tests come down to two |
| Discovery.DeviceIDIs | discovery/discovery.go:88-96 | the identifier is the D record if that holds anything, else the address and port |
| Discovery.IDsCollideIff | discovery/discovery.go:88-96 | two devices have one identifier if and only if both name the same one, both fall back to the same address and port, or one records what the other falls back to, cut at its last colon |
| Discovery.FallbackIDInjective | discovery/discovery.go:89-96 | where the D record is missing or empty, identifiers agree if and only if address and port do |
| Discovery.SplitAtEquals | discovery/discovery.go:241-242 | splits at the first equals sign, if there is one |
| Discovery.ParseServiceEntry | discovery/discovery.go:221-254 | a device exactly for entries with an address, IPv4 first; each TXT key keeps its last value |
| Discovery.OverrideLastWins | discovery/discovery.go:181-187 | lookup finds the last device scanned with that identifier, else the one known before; keys stay their devices' identifiers |
| Discovery.Scanner.Discover | discovery/discovery.go:175-204 | the map is the old one overridden by the scan in order, and the result describes the usable entries in order |
| App.App.HandOver | main.go:363-371 | one device of the scan: started exactly if it has power measurement and is not monitored |
| App.App.DiscoverAndMonitor | main.go:337-374 | after a scan under a live context, with the monitor in any state, exactly the power devices found have come to be monitored; a failed scan changes nothing |
| App.HandOffIsForPowerDevices | main.go:363-371 | every power device found is monitored, and a goroutine was made for no other device |
| App.HandOffIsUnique | main.go:363-371 | a live goroutine then serves each power device of the scan, however often it was listed, and no second one does exactly unless it was unmonitored while its former goroutine still lived |

## Left out

- The InfluxDB client, its asynchronous write API and the gobreaker breaker inside `InfluxDBStorage`: library code. Storage is a choice of success or error.
- Flux beyond double-quoted literals: the scanner knows their escapes and rejects interpolation, but not the rest of the language's lexical rules, nor what an interpolated expression means.
- The file system below the cache: path cleaning and device identifiers with path separators, permissions, JSON text. A directory is a map from the names that the pattern `cache_*.json` finds to files.
- LocalCache.InsertByTime: `sort.Slice` is library code; the contract leaves ties open as it does.
- CachingStorage.WriteReading: alerts and the 0.8 warning ratio are not modelled; the flag edges that trigger alerts are.
- Shutdown.ShutdownTerminates: counts steps of the model, not time, and says nothing about a reading in progress that never returns.
- `UpdatePollInterval` and tickers: a goroutine may miss a change, so ticks and wake-ups are arbitrary.
- RetryQueue.RetryWorker.ProcessRetries: closing the retry channel while the worker requeues is not modelled; nothing else enqueues during the loop.
- Draining at process exit: buffered readings may stay unread when the context ends, and the data writer may leave at any time.
- `GetDevices`, `GetPowerDevices`, `GetDeviceByID`: single lookups that would only add easy members.
- Configuration, schema validation, logging, metrics, Slack, HTTP endpoints, rate limits and signals: no part of the path of a reading.
- `MatterClient.ReadPower` is a placeholder in the source; a read is an arbitrary value or an error, and values are opaque.
