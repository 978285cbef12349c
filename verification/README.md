# Verified models of the trading backend

Dafny models of the self-contained cores of the trading backend, with proofs of what they
promise over every input, every interleaving and every run. Code that updates objects or
accumulates in loops is modelled as classes and methods proved against specification
functions; the promises are lemmas about those functions.

| file | core |
|---|---|
| `SwrCache.dfy`, `SwrRuns.dfy`, `SwrWrites.dfy` | the stale-while-revalidate cache with per-key locks and background refresh, as a labelled step system over all interleavings, what it can be led to, and what a computation leaves in the store |
| `Pagination.dfy` | the paged download of venue candles, and the window that reaches the caller |
| `Bars.dfy`, `Resampling.dfy`, `Merging.dfy` | window filter, clock buckets, weekly and monthly loops, the three n-bar mergers |
| `Failover.dfy` | which source a call gets, and the order in which venues are asked |
| `Universe.dfy`, `UniverseFacts.dfy` | the temporal membership table behind point-in-time queries, and what it tells of a member beside the symbol |
| `DataCache.dfy`, `CacheInclusion.dfy` | the TTL and LRU cache, and when a larger one keeps what a smaller one keeps |
| `CircuitBreaker.dfy` | per-source circuit breaker |
| `ChatStream.dfy`, `Text.dfy` | the chat event stream with one-shot recovery |
| `Indicators.dfy` | EMA and Wilder RSI over exact reals |
| `MergeLegs.dfy` | merging duplicate position rows |
| `SqlSeed.dfy` | collecting, printing and reading back the symbol seed |
| `LineRewriter.dfy`, `InsertedLines.dfy` | the decorator-inserting line loop, and where by the input's positions it inserts what |
| `Basics.dfy` | option type, minimum and maximum, products |

Prices are integers, volumes integer hundredths, times integers (milliseconds in the
download, seconds elsewhere), position sizes and indicator values exact reals. Venues, the
language model, billing and the clock are arbitrary functions or scripts. Week and month keys
are arbitrary functions of time. Verify with `dafny verify dfyconfig.toml`.

Where the code and its comments differ, the model follows the code:

- `force=True` computes without the per-key lock, so two computations of a key can overlap,
  exactly when one of them is forced (`OverlapExactly`).
- A background job never looks at the store, so a key that has meanwhile become fresh can be
  computed again: one refresh per expiry is not kept (`FreshKeyRecomputed`,
  `JobComputesExactly`).
- The half-open call limit of the circuit breaker never bites for limits of at least 1,
  because the counter is never incremented (`HalfOpenLimitNeverBites`).
- `DataCache.set` evicts before it looks whether the key is already there and an overwrite
  keeps the old place, so a larger cache can lose what a smaller one keeps. It loses nothing
  in runs without overwrites (`InclusionWithoutOverwrites`); over all runs inclusion holds
  exactly for equal sizes or a smaller size of at most two (`InclusionExactly`).
- Two of the three mergers return too short input unmerged, the third drops it
  (`MergersAgreeExactly`), so only the third composes on every input (`AsiaComposesExactly`).
- `klines[-limit:]` keeps everything for a limit of zero (`LimitHonouredExactly`).
- A snapshot dated before the table's newest date records some days wrongly
  (`SnapshotDateRule`) or is refused by the unique index (`RefusedExactly`).
- A snapshot overwrites name, weight, rank and metadata on the open row, so the query for an
  earlier day can tell later facts (`LaterFactsToldEarlier`). They are kept exactly when the
  snapshot repeats them (`EarlierFactsKeptExactly`, `AlwaysAsOfExactly`); what is told is always
  the last entry of an unbroken run (`FactsInTime`).
- A ticker call misses a fallback's quote when its own venue quotes a price that is not
  positive, or bars the symbol (`QuoteMissedExactly`).
- The fallback loop asks a preferred venue again, and compares registry ids with the client's
  id, so an unscoped Binance futures source has its own venue twice in its plan
  (`VenueRepeatsExactly`).
- The previous close for the true range is looked up at the wrong bar for 3 to 14 bars
  (`PreviousCloseExactly`).
- The merge of duplicate positions renames the kept row before it deletes the others, and the
  table allows one row per strategy, symbol and side: a canonical row that is not the kept one
  makes the update raise, and nothing is merged (`BlockedAtTurn`, `PairMergesExactly`).
- The seed collector compares markets as given but prints them stripped
  (`SpacedMarketsCollide`); a key is printed twice exactly for two spellings of one market
  (`PrintedKeysExactly`, `ConflictKeysExactly`).
- The rewriter passes over the whole stack below a route that mentions the doc, so a second route
  in that stack gets no line (`PassedOver`); otherwise any route of the stack asks for one
  (`AnyRouteAsks`).

Every lemma carries `{:induction false}`, so that no proof rests on automatic induction.

## Model

| member | source | states |
|---|---|---|
| SwrCache.SingleFlight | backend/app/data_providers/__init__.py:213-256 | in every reachable state, two threads computing one key at once include a forced call |
| SwrRuns.OverlapExactly | backend/app/data_providers/__init__.py:213-256 | two calls or jobs of given kinds can compute one key at once exactly when one of them is a forced call |
| SwrRuns.ForcedCallJoins | backend/app/data_providers/__init__.py:215-216 | a forced call computes at once, whoever is computing the key |
| SwrRuns.JobIgnoresStore | backend/app/data_providers/__init__.py:273-286 | in every reachable state a job's next step is the same whatever the store holds |
| SwrRuns.JobComputesExactly | backend/app/data_providers/__init__.py:274-277 | in every reachable state a job's step makes it compute exactly when it is at its key's lock and the lock is free |
| SwrRuns.FreshKeyRecomputed | backend/app/data_providers/__init__.py:222-224 | from every reachable state with a stale entry and nothing of the key under way, a stale read's job can go on to compute the key after another writer has made it fresh |
| SwrRuns.JobCanRecompute | backend/app/data_providers/__init__.py:273-286 | some run ends with a job computing a key whose entry is fresh |
| SwrCache.LockIdentity | backend/app/data_providers/__init__.py:103-113 | over a whole run, two threads hold the same lock object exactly when they asked for the same key |
| SwrCache.LocksOnlyGrow | backend/app/data_providers/__init__.py:103-113 | a key never gets a second lock object |
| SwrCache.RefreshBookkeeping | backend/app/data_providers/__init__.py:268-293 | a key is marked as refreshing exactly while one thread stands for its one job |
| SwrCache.StepsAreBounded | backend/app/data_providers/__init__.py:190-293 | every own step brings a call or job nearer its end, whatever others do |
| SwrCache.NoDeadlock | backend/app/data_providers/__init__.py:190-293 | when nothing can move, every call has answered, no lock is held and no key is left marked |
| SwrCache.HolderMoves | backend/app/data_providers/__init__.py:230-293 | whoever holds a lock can take its next step |
| SwrCache.AnswersAreSound | backend/app/data_providers/__init__.py:213-256 | an answer is a value read while fresh, a stale one only if allowed, or the call's own result |
| SwrCache.FailureKeepsEntry | backend/app/data_providers/__init__.py:242-256 | an entry changes only by eviction, a direct write or a finished computation; a failed one leaves the store as it was |
| SwrWrites.ComputedIsStored | backend/app/data_providers/__init__.py:242-256 | over any run, whoever computes: a result written without fault is in the store, stamped with the clock at the wrapping, fresh for max(1, ttl) from then and given out for 5 * ttl from the write |
| SwrWrites.CanStore | backend/app/data_providers/__init__.py:242-256 | from any state the three steps from computing to written are open to the thread |
| SwrWrites.JobInherits | backend/app/data_providers/__init__.py:259-285 | a job computes its caller's key with its caller's ttl |
| SwrWrites.ThreadsKeep | backend/app/data_providers/__init__.py:190-293 | over any run role, key and ttl of a thread stay |
| SwrWrites.ReaderFinds | backend/app/data_providers/__init__.py:218-219 | a reader gets the stored entry exactly before its expiry |
| SwrWrites.ReaderAnswers | backend/app/data_providers/__init__.py:217-231 | a value still fresh is answered at once, a stale one if allowed, and otherwise the call turns to the lock |
| SwrWrites.ReaderElse | backend/app/data_providers/__init__.py:138-152 | an old payload is always fresh; no entry or an empty one sends the call to the lock |
| SwrWrites.SecondLook | backend/app/data_providers/__init__.py:230-239 | under the lock a fresh value is answered, anything else computed |
| SwrWrites.StaleIsRepaired | backend/app/data_providers/__init__.py:222-224 | from every reachable stale and quiet state a stale read's job can store a fresh value |
| SwrCache.NoStampede | backend/app/data_providers/__init__.py:213-256 | on a cold key without faults, any number of callers start exactly one computation and all answer with its stored value |
| Pagination.Download | backend/app/data_sources/crypto.py:782-858 | the page loop with retries, empty-page streak and budgets ends in the state the specification walk gives |
| Pagination.AskVenue | backend/app/data_sources/crypto.py:814-837 | up to three attempts give the first answer that is not a refusal, or the last refusal |
| Pagination.FetchOhlcv | backend/app/data_sources/crypto.py:738-894 | without a right edge, or one of 0, one request for the newest candles; otherwise window, download, de-duplication by time, partial rows and fallback after errors |
| Pagination.SlotPageIsGood | backend/app/data_sources/crypto.py:816-823 | a venue that answers with exactly 300 time slots meets the page contract |
| Pagination.CountPageIsGood | backend/app/data_sources/crypto.py:816-823 | a venue that answers with the first 300 candles meets the page contract |
| Pagination.CoveredPrefixComplete | backend/app/data_sources/crypto.py:801-858 | whatever ends the download, the rows are strictly increasing venue candles, complete up to the last request |
| Pagination.BatchCapHarmless | backend/app/data_sources/crypto.py:785-801 | the cap on requests cannot cut a window of up to 194,968 bars |
| Pagination.CompleteExactly | backend/app/data_sources/crypto.py:840-858 | every candle of the window is downloaded if there is no gap of 620 empty slots, and never from a slot venue if there is one |
| Pagination.LatestMeans | backend/app/data_sources/crypto.py:859-860 | whatever the pages held: one row for every timestamp, the last received, in increasing time |
| Pagination.WindowReachesBack | backend/app/data_sources/crypto.py:740-760 | the requested span reaches back at least to the left edge and ends at the right edge or now |
| Pagination.WindowExact | backend/app/data_sources/crypto.py:729-894 | `get_kline` returns exactly the venue's candles of the half-open window, none missing, repeated or outside, also for a right edge in the future |
| Pagination.LatestExact | backend/app/data_sources/crypto.py:617-623 | without a left edge `get_kline` returns the latest `limit` of the venue's candles of the span before the right edge, and fallback rows only if the span has none |
| Pagination.LatestOfAllExactly | backend/app/data_sources/crypto.py:740-760 | these are the latest `limit` of all the venue's candles before the edge exactly when the span holds that many, or everything before the edge |
| Pagination.SpanReachesLimit | backend/app/data_sources/crypto.py:740-760 | without a left edge the span starts `limit` bars and a fifth before its end, rounded to a second |
| Pagination.LastSlots | backend/app/data_sources/crypto.py:617-623 | with a candle in each of the last `limit` slots before the edge, `get_kline` returns exactly these `limit` candles |
| Pagination.RecentExact | backend/app/data_sources/crypto.py:763-782 | from a venue with a recent-candle limit: nothing for a window before it, and otherwise exactly the window's candles it still keeps |
| Pagination.PartialWindow | backend/app/data_sources/crypto.py:858-894 | whatever ends a download with rows, candles of the window reach the caller in order, and none before the next request is missing; an unknown symbol gives nothing |
| Bars.FilterAndLimitMeans | backend/app/data_sources/base.py:106-138 | exactly the given bars inside the window, stable in time order, and the latest `limit` of them |
| Bars.SortMeans | backend/app/data_sources/base.py:128 | the sort is a stable permutation in time order |
| Bars.LimitHonouredExactly | backend/app/data_sources/base.py:135-136 | the row limit holds exactly when it is positive or no given row lies in the window |
| Resampling.Resample | backend/app/data_sources/moex.py:126-155 | the one-pass loop equals grouping runs of bars by their clock bucket |
| Resampling.AggregateByPeriod | backend/app/data_sources/forex.py:553-625 | the weekly and monthly loops equal grouping runs of bars by their period key |
| Resampling.ExtremesMean | backend/app/data_sources/moex.py:148-149 | high and low of a summary bound its bars and are attained |
| Resampling.GroupsAreBuckets | backend/app/data_sources/forex.py:563-586 | on sorted bars and a monotone key: one bar per occurring key, in rising order, summarising exactly the bars of that key |
| Resampling.ResampleMeans | backend/app/data_sources/moex.py:126-155 | on sorted bars every output bar summarises exactly its clock bucket and times strictly increase |
| Resampling.BucketsSummarised | backend/app/data_sources/moex.py:126-155 | on sorted bars every output bar has the first open, last close, attained extremes and volume of exactly the bars of its `w` seconds |
| Resampling.VolumeConserved | backend/app/data_sources/moex.py:147-151 | total volume is conserved for any input order and key |
| Resampling.PeriodTimesIncrease | backend/app/data_sources/forex.py:590-625 | period bars have strictly increasing times when later periods have later starts |
| Resampling.BucketsNest | backend/app/data_sources/moex.py:134-135 | a finer bucket lies inside one coarser bucket whose width it divides |
| Resampling.ResampleComposes | backend/app/data_sources/moex.py:126-155 | resampling to a and then to a multiple b equals resampling to b |
| Merging.MergeCrypto | backend/app/data_sources/crypto.py:694-717 | the loop returns one summary for every full chunk |
| Merging.MergeAsia | backend/app/data_sources/asia_stock_kline.py:541-557 | the same, but input shorter than a chunk comes back unmerged |
| Merging.MergeUs | backend/app/data_sources/us_stock.py:555-570 | the same after sorting |
| Merging.ChunkAt | backend/app/data_sources/crypto.py:694-717 | the j-th bar merged has the first open, last close, attained extremes and volume of the bars from j * n to j * n + n - 1 |
| Merging.MergersAgreeExactly | backend/app/data_sources/us_stock.py:555-570 | on sorted input the three agree exactly when there is nothing to merge or enough for one chunk |
| Merging.CountingRefinesClock | backend/app/data_sources/asia_stock_kline.py:541-557 | on gap-free aligned bars merging by count gives the clock resampler's bars, save a last partial bucket |
| Merging.FourWaysOneResult | backend/app/data_sources/moex.py:126-155 | with whole chunks all three mergers and the resampler return the same bars |
| Merging.ChunksCompose | backend/app/data_sources/crypto.py:694-717 | merging by n then m is merging by m * n, partial chunks dropped |
| Merging.CryptoComposes | backend/app/data_sources/crypto.py:694-717 | the crypto merger composes on every input |
| Merging.AsiaComposesExactly | backend/app/data_sources/asia_stock_kline.py:541-557 | the variant that keeps short input composes exactly under a condition on the length |
| Universe.UniverseTable.ApplySnapshot | backend/scripts/refresh_public_universe_snapshots.py:288-368 | dry run, unknown code and a broken constraint change nothing; otherwise the rows, the recorded date and the summary counts |
| Universe.UniverseTable.Prune | backend/scripts/refresh_public_universe_snapshots.py:316-330 | missing symbols are deleted when they came in the same day or later, closed otherwise, unless that would leave an empty range |
| Universe.UniverseTable.Upsert | backend/scripts/refresh_public_universe_snapshots.py:330-353 | members are refreshed or inserted, and an insert is refused exactly when the table before the snapshot has its interval |
| Universe.UniverseTable.ActiveRows | backend/scripts/refresh_public_universe_snapshots.py:309-315 | the open rows by symbol with their start |
| Universe.CleanedMeans | backend/scripts/refresh_public_universe_snapshots.py:289 | cleaning keeps, for every listed symbol, its last entry |
| Universe.AfterHistory | backend/scripts/refresh_public_universe_snapshots.py:316-353 | a snapshot steps every symbol of its universe by itself and leaves other universes alone |
| Universe.PointInTime | backend/scripts/refresh_public_universe_snapshots.py:309-353 | over any log of snapshots with the universe's own in date order, the query for a day returns the symbols of the last snapshot dated on or before it, and the table stays tidy |
| Universe.SnapshotStep | backend/app/services/universe.py:291-301 | a snapshot not older than the table is accepted, leaves the days before its date as they were and sets the days from it on |
| Universe.RowsWritten | backend/scripts/refresh_public_universe_snapshots.py:330-353 | a new symbol gets an open row with its market and facts from the date on, an active one's row keeps market and start and takes the facts |
| Universe.RefusedExactly | backend/migrations/init.sql:953-956 | on a tidy table a snapshot is refused exactly when it lists an inactive symbol with a closed row of its market that started on the snapshot's date |
| Universe.SnapshotDateRule | backend/scripts/refresh_public_universe_snapshots.py:317-331 | every snapshot of a date is recorded right exactly when no row starts or ends after that date |
| Universe.ConstraintsHold | backend/migrations/init.sql:950-957 | closed rows are non-empty, starts are distinct, rows are disjoint, at most one is open |
| Universe.ReapplyChangesNothing | backend/scripts/refresh_public_universe_snapshots.py:309-353 | applying a snapshot twice leaves the same rows as once, on any table, and what was accepted once is accepted again |
| Universe.ActiveCountMoves | backend/scripts/refresh_public_universe_snapshots.py:368 | the number of open rows moves by added minus removed, to the number of listed symbols |
| UniverseFacts.SnapshotTells | backend/scripts/refresh_public_universe_snapshots.py:332-353 | what one snapshot makes the query tell of a symbol, for days before and after its date |
| UniverseFacts.EarlierFactsKeptExactly | backend/scripts/refresh_public_universe_snapshots.py:332-340 | a snapshot leaves the facts of all earlier days exactly when every listed item repeats the facts of its symbol's older open row |
| UniverseFacts.FactsInTime | backend/app/services/universe.py:290-301 | over any log in date order the query for a day tells what the last snapshot says in the unbroken run listing the symbol that starts with the one governing the day; the facts as of the day exactly when that one repeats them |
| UniverseFacts.FactsBeforeLog | backend/app/services/universe.py:290-301 | for days before the first snapshot, the table's own rows, overwritten by a run that starts the log |
| UniverseFacts.AlwaysAsOfExactly | backend/app/services/universe.py:290-301 | the query has always told the facts as of a day exactly when no snapshot of the run changes them |
| UniverseFacts.LaterFactsToldEarlier | backend/scripts/refresh_public_universe_snapshots.py:332-340 | two snapshots list one symbol with different facts, and the second one's are told of the days between |
| DataCache.DataCache.Get | backend/app/data_sources/cache_manager.py:69-94 | a hit moves the key to the end, an expired entry is dropped, the counters follow |
| DataCache.DataCache.Set | backend/app/data_sources/cache_manager.py:96-122 | evicts down to one below the limit, then assigns; raises exactly for a limit below 1 |
| DataCache.DataCache.Delete | backend/app/data_sources/cache_manager.py:124-131 | removes the key and says whether it was there |
| DataCache.DataCache.Clear | backend/app/data_sources/cache_manager.py:133-139 | removes everything and returns how much |
| DataCache.DataCache.CleanupExpired | backend/app/data_sources/cache_manager.py:141-153 | removes exactly the expired entries and returns their number |
| DataCache.RunIsSound | backend/app/data_sources/cache_manager.py:69-153 | over any run every cell is the latest set of its key since the last delete or clear, keys are unique, the limit holds |
| DataCache.HitIsLatestSet | backend/app/data_sources/cache_manager.py:69-94 | a hit returns the latest set, and it has not expired |
| DataCache.HitExactly | backend/app/data_sources/cache_manager.py:69-94 | after any run a present key has the data of its last `set` operation, and hits exactly within that operation's ttl or the default |
| DataCache.SetThenGet | backend/app/data_sources/cache_manager.py:96-122 | a `set` is found by the next `get`, with its data, exactly while its ttl lasts |
| DataCache.SizeAndCounters | backend/app/data_sources/cache_manager.py:69-122 | the size never exceeds the limit, hits and misses add up to the gets |
| DataCache.OldestTouchFirst | backend/app/data_sources/cache_manager.py:111-113 | cells stand in the order of their last touches, so the victim has the oldest |
| DataCache.Survives | backend/app/data_sources/cache_manager.py:69-122 | with b cells behind it a key outlasts any max_size - 1 - b set and get calls that spare it: no delete, clear or expiry of it |
| DataCache.SurvivesAfterTouch | backend/app/data_sources/cache_manager.py:69-122 | after a touch, any max_size - 1 such calls |
| DataCache.SurvivalIsSharp | backend/app/data_sources/cache_manager.py:111-120 | under sets of new keys the bound is exact |
| CacheInclusion.InclusionWithoutOverwrites | backend/app/data_sources/cache_manager.py:69-153 | over any run in which no set hits a key the larger cache holds, the smaller one's cells are in it, in the same order, and it hits at least as often |
| CacheInclusion.InclusionUpToTwo | backend/app/data_sources/cache_manager.py:69-153 | a cache of at most two cells is included in every larger one over any run |
| CacheInclusion.LargerCacheLosesMore | backend/app/data_sources/cache_manager.py:111-120 | for any sizes 3 <= n < m, a run of m + 2 sets after which the smaller cache has a key the larger one lacks |
| CacheInclusion.InclusionExactly | backend/app/data_sources/cache_manager.py:69-153 | over all runs, sizes n <= m include each other exactly when n == m or n <= 2 |
| CircuitBreaker.CircuitBreaker.IsAvailable | backend/app/data_sources/circuit_breaker.py:66-96 | the answer and the move from open to half open |
| CircuitBreaker.CircuitBreaker.RecordSuccess | backend/app/data_sources/circuit_breaker.py:98-108 | the record after a success |
| CircuitBreaker.CircuitBreaker.RecordFailure | backend/app/data_sources/circuit_breaker.py:110-128 | the record after a failure |
| CircuitBreaker.CircuitBreaker.ResetSource | backend/app/data_sources/circuit_breaker.py:141-149 | one source forgotten, or all for an empty name |
| CircuitBreaker.StateIsLog | backend/app/data_sources/circuit_breaker.py:66-149 | for all settings the phase is a function of the log: closed below the threshold, half open once probed after the cooldown |
| CircuitBreaker.AnswerIsLog | backend/app/data_sources/circuit_breaker.py:66-96 | with a clock that does not go back, the exact answer for all settings |
| CircuitBreaker.Available | backend/app/data_sources/circuit_breaker.py:66-96 | with positive settings: below the threshold, or cooldown elapsed since the last failure |
| CircuitBreaker.Independent | backend/app/data_sources/circuit_breaker.py:54-64 | a source's record depends only on the calls that concern it |
| CircuitBreaker.HalfOpenLimitNeverBites | backend/app/data_sources/circuit_breaker.py:91-94 | while half open any number of queries is answered |
| Failover.CryptoSource.GetKline | backend/app/data_sources/crypto.py:497-676 | asks the venues of the plan in order, passes on the first bars, and moves the preference accordingly |
| Failover.CryptoSource.GetTicker | backend/app/data_sources/crypto.py:405-495 | the same for quotes, where a barred symbol ends the call at once |
| Failover.CallMeans | backend/app/data_sources/crypto.py:507-537 | nothing asked before the answer answers, nothing is asked after it |
| Failover.CallIsBounded | backend/app/data_sources/crypto.py:637-676 | at most eight questions per call, one from a scoped source |
| Failover.NoBarsExactly | backend/app/data_sources/crypto.py:497-676 | a kline call returns no bars exactly when no leg of its plan would give any in its turn |
| Failover.NoBarsOnlyIfNobodyHasAny | backend/app/data_sources/crypto.py:637-676 | a call returns no bars only if its own venue and every listed fallback were asked and gave none; otherwise those of the last venue asked |
| Failover.PositiveQuoteExactly | backend/app/data_sources/crypto.py:405-495 | a ticker call gives a positive quote exactly when the preferred or own venue has one, or a fallback has one and the own venue's reply does not end the call |
| Failover.QuoteMissedExactly | backend/app/data_sources/crypto.py:441-495 | a fallback's quote is missed exactly when no earlier venue has one and the own venue quotes a price that is not positive or bars the symbol |
| Failover.ScopedStaysHome | backend/app/data_sources/crypto.py:164-190 | on any run a scoped source asks only its own venue |
| Failover.NamedExchangeIsKept | backend/app/data_sources/factory.py:280-295 | a call that names an exchange gets a source of the asked market, swap if none, that never leaves it, or an error for an unknown one |
| Failover.PublicMayFailOver | backend/app/data_sources/factory.py:288-300 | a call that names none gets a failover source of the right market |
| Failover.VenueByName | backend/app/data_sources/crypto.py:54-80 | which client and market a call gets, by the names asked for: htx for huobi, binance for an unlisted default, binanceusdm for Binance swaps |
| Failover.FallbacksByName | backend/app/data_sources/crypto.py:22-23 | an unscoped source falls back to every listed exchange but its own, in the listed order |
| Failover.PreferredHasAnswered | backend/app/data_sources/crypto.py:513-537 | on any run of kline and ticker calls the remembered venue is one that has answered |
| Failover.VenueRepeatsExactly | backend/app/data_sources/crypto.py:637-676 | the plan of any source names a venue twice exactly when a preferred venue is tried first or the unscoped source is that of Binance futures |
| Failover.BinanceFuturesAskedTwice | backend/app/data_sources/crypto.py:642-644 | such a source: the futures source of Binance has its own venue twice in its plan |
| ChatStream.StreamWithRecovery | backend/app/routes/ai_chat.py:2365-2425 | the events of the stream, whether it succeeds, and at most one regeneration |
| ChatStream.WarnsAndReplacesExactly | backend/app/routes/ai_chat.py:2365-2425 | a stream warns exactly when cut off by length after some text, and is replaced by the stripped second text exactly when it breaks otherwise in a way worth a retry |
| ChatStream.LastEventExactly | backend/app/routes/ai_chat.py:2518-2574 | the last event is done, with the recovered and truncated flags, exactly when nothing failed |
| ChatStream.Conversation.Generate | backend/app/routes/ai_chat.py:2454-2574 | the whole trace, what is committed when each event is emitted, and what a run leaves in the store |
| ChatStream.TracesFit | backend/app/routes/ai_chat.py:2486-2562 | every trace fits the event grammar |
| ChatStream.GrammarIsExact | backend/app/routes/ai_chat.py:2454-2574 | the grammar accepts exactly the traces that some run emits |
| ChatStream.HangUpFits | backend/app/routes/ai_chat.py:2454-2574 | what a client has received when it hangs up is a proper beginning of a valid trace |
| ChatStream.ClientAgreesWithStore | backend/app/routes/ai_chat.py:2518-2552 | after `done`, appending deltas and overwriting by `replace` gives, stripped, the one stored answer |
| ChatStream.RecoveredAnswer | backend/app/routes/ai_chat.py:2402-2425 | a recovered answer is what the reliable path returned and nothing of the broken stream |
| Text.StripMeans | backend/app/routes/ai_chat.py:2535 | stripping leaves no space at either end and changes nothing that has none |
| Indicators.Ema | backend/app/routes/ai_chat.py:497-505 | the loop computes the recursive average, or none for short input |
| Indicators.EmaMonotone | backend/app/routes/ai_chat.py:497-505 | the average is monotone in every input |
| Indicators.EmaBetween | backend/app/routes/ai_chat.py:497-505 | it lies between any bounds of the values |
| Indicators.EmaStep | backend/app/routes/ai_chat.py:497-505 | the first average is the mean of `period` values, each further value weighs 2 / (period + 1) |
| Indicators.Rsi | backend/app/routes/ai_chat.py:508-526 | the two loops compute Wilder's index, or none for short input |
| Indicators.StrengthShare | backend/app/routes/ai_chat.py:523-526 | the index is the gains' share of all moves, in percent |
| Indicators.RsiInRange | backend/app/routes/ai_chat.py:508-526 | the index lies in [0, 100] |
| Indicators.RsiInNumbers | backend/app/routes/ai_chat.py:508-526 | the averages start as means of rises and falls and take one part in `period` of each further move; the index is the rises' share |
| Indicators.RsiUnits | backend/app/routes/ai_chat.py:508-526 | it does not change under positive scaling and shifting |
| Indicators.FullStrength | backend/app/routes/ai_chat.py:508-526 | for a period of at least 2 it is 100 exactly for series that never fall |
| Indicators.FullStrengthPeriodOne | backend/app/routes/ai_chat.py:508-526 | for period 1 only the last move counts |
| Indicators.Mirror | backend/app/routes/ai_chat.py:508-526 | negating the prices mirrors it exactly when the series is not flat, for period 1 when the last move is not zero |
| Indicators.PreviousCloseExactly | backend/app/routes/ai_chat.py:588-590 | the previous close is looked up at the right bar exactly for at least 15 or at most 2 bars |
| MergeLegs.PositionTable.MergeDuplicateLegs | backend/scripts/migrate_canonical_symbols.py:125-180 | the table after the run, merged and within its constraints or exactly as it was, and whether an update raised |
| MergeLegs.UpdateLegal | backend/migrations/init.sql:419 | the update breaks the unique constraint exactly when another row of the strategy and side has the canonical symbol |
| MergeLegs.BlockedAtTurn | backend/scripts/migrate_canonical_symbols.py:166-176 | at a group's turn its update is blocked exactly when a row of the initial table stands in the way |
| MergeLegs.MergeOneGroup | backend/scripts/migrate_canonical_symbols.py:147-176 | the statements for one group merge that group and touch no other row |
| MergeLegs.PositionConserved | backend/scripts/migrate_canonical_symbols.py:147-176 | over any run total size is conserved, notional too for positive size, and a run that succeeds leaves one row per key under its smallest id |
| MergeLegs.SamePositionExactly | backend/scripts/migrate_canonical_symbols.py:141-147 | two rows are one position exactly when strategy, market type, side and upper-cased canonical symbol agree |
| MergeLegs.SizeConserved | backend/scripts/migrate_canonical_symbols.py:147-176 | for every strategy, market type, side and symbol a run conserves total size, and worth where it is positive, and a run that succeeds leaves one row |
| MergeLegs.EntryBetween | backend/scripts/migrate_canonical_symbols.py:150-153 | after any run a group's entries lie between its smallest and largest entry |
| MergeLegs.SecondRunDoesNothing | backend/scripts/migrate_canonical_symbols.py:125-180 | a second run changes no row: it finds nothing to merge, or fails as the first did |
| MergeLegs.CanonicalLegBlocks | backend/scripts/migrate_canonical_symbols.py:166-176 | a group with a canonical row on the kept row's side that is not the kept one makes the run fail |
| MergeLegs.MarketTwinsBlock | backend/scripts/migrate_canonical_symbols.py:166-176 | two crowded groups that differ only in market type, kept on one side, make the run fail |
| MergeLegs.PairMergesExactly | backend/scripts/migrate_canonical_symbols.py:147-176 | two rows of one group merge exactly when the later one does not have the canonical symbol on the earlier one's side |
| MergeLegs.OldSpellingFirst | backend/scripts/migrate_canonical_symbols.py:166-176 | an old spelling followed by the canonical one: a legal table that the run leaves as it is |
| SqlSeed.Collector.Add | backend/scripts/generate_market_symbols_seed_sql.py:152-166 | a row is added exactly when it is acceptable and its key is new |
| SqlSeed.CollectedFirsts | backend/scripts/generate_market_symbols_seed_sql.py:152-166 | the collector holds, once for every key, the first acceptable row |
| SqlSeed.InputsCollected | backend/scripts/generate_market_symbols_seed_sql.py:156-166 | every input with a market, a symbol and a name has a row under its market and upper-cased symbol |
| SqlSeed.SortedMeans | backend/scripts/generate_market_symbols_seed_sql.py:306 | the rows printed are the rows collected, ordered by market and symbol |
| SqlSeed.ReadEscaped | backend/scripts/generate_market_symbols_seed_sql.py:301-302 | a quoted string is read back whatever it holds |
| SqlSeed.ReadPrintedRows | backend/scripts/generate_market_symbols_seed_sql.py:315-319 | reading the printed rows gives every row's cleaned fields in order |
| SqlSeed.ValuesRoundTrip | backend/scripts/generate_market_symbols_seed_sql.py:305-320 | the emitted list is read back exactly when there is a row |
| SqlSeed.InputsReadBack | backend/scripts/generate_market_symbols_seed_sql.py:152-320 | every row read back holds, column by column, what one of the inputs says, and the five constants |
| SqlSeed.PrintedKeysExactly | backend/scripts/generate_market_symbols_seed_sql.py:152-166 | a market and symbol are printed twice exactly when two acceptable inputs have one printed symbol and markets that differ only in outer space |
| SqlSeed.ConflictKeysExactly | backend/scripts/generate_market_symbols_seed_sql.py:315-322 | a conflict key is printed twice exactly when two such inputs, each the first with its key, also have the same exchange |
| SqlSeed.NoKeyTwice | backend/scripts/generate_market_symbols_seed_sql.py:305-322 | in particular never when market names have no outer space |
| SqlSeed.SpacedMarketsCollide | backend/scripts/generate_market_symbols_seed_sql.py:157-165 | two spellings of one market print the same key |
| LineRewriter.Rewrite | backend/scripts/migrate_blueprint_to_smorest.py:62-93 | the two-index loop consumes every line once and yields the block-by-block rewriting |
| LineRewriter.ErasingRestores | backend/scripts/migrate_blueprint_to_smorest.py:62-93 | deleting the inserted lines gives back the input |
| LineRewriter.SecondRunInsertsNothing | backend/scripts/migrate_blueprint_to_smorest.py:62-93 | on its own output the rewriter inserts nothing |
| LineRewriter.RewritingSettles | backend/scripts/migrate_blueprint_to_smorest.py:62-93 | the output is a fixed point |
| LineRewriter.DocLineIs | backend/scripts/migrate_blueprint_to_smorest.py:85-91 | an inserted line is a doc decorator, and neither a route nor a definition |
| InsertedLines.InsertedExactly | backend/scripts/migrate_blueprint_to_smorest.py:62-93 | one line goes in before line j exactly when a route leads a stack of plain decorators ending at j, does not mention the doc, and line j starts a definition; its text |
| InsertedLines.AnyRouteAsks | backend/scripts/migrate_blueprint_to_smorest.py:74-83 | where no route mentions the doc, any route with only plain decorators down to the definition asks for the line |
| InsertedLines.PassedOver | backend/scripts/migrate_blueprint_to_smorest.py:82-92 | a route in the stack of one that mentions the doc gets no line |
| InsertedLines.RouteExactly | backend/scripts/migrate_blueprint_to_smorest.py:69 | a line is a route exactly when it has the pattern's shape, with one indent and blueprint |
| InsertedLines.DefinedExactly | backend/scripts/migrate_blueprint_to_smorest.py:83 | a line starts a definition exactly when it has the pattern's shape |
| InsertedLines.MentionsExactly | backend/scripts/migrate_blueprint_to_smorest.py:76-82 | a line mentions the doc exactly when the text occurs in it |

## Left out

- SwrCache: the executor's four workers and its queue order are over-approximated by running jobs in any order; `clear_cache` and the generic getters are not modelled.
- Pagination: sleeps and logging are not modelled; the wall-clock budget is an arbitrary function of the batch number, and rows with fewer than six fields do not occur.
- Pagination.WindowExact: assumes both edges, no candle between now and a right edge in the future, no recent-candle limit of the venue, no request that fails for good and no exhausted time budget.
- Pagination.LatestExact: the same, without the left edge; `LatestOfAllExactly` also assumes a candle in the span.
- Failover: candles fetched by resampling a finer timeframe, the instance cache and the alternative-symbol retry of `get_ticker` are inside the arbitrary reply of a venue.
- Universe: the symbol master is not modelled, and the exchange, market type and instrument columns are the ones the script writes.
- DataCache: locking, statistics and the shared instances.
- CircuitBreaker: `get_status` and logging.
- ChatStream: payload fields beside text and flags, tables and billing; a disconnected client is a cut trace, with the messages committed at that event.
- Indicators: rounding of floating-point numbers; a period of 0, for which the source divides by zero; the remaining fields of the market summary.
- MergeLegs: rows with a null strategy, side or symbol, rounding to the columns' eight decimals, the listing of duplicate groups, and the two backfills; naming functions are arbitrary but upper case is final.
- SqlSeed: the data providers, the mojibake repair and the statements after the VALUES list; upper-casing is arbitrary but introduces no outer space.
- LineRewriter: the renaming of blueprints before the loop, splitting and joining of lines, and word characters beyond ASCII; how names become summaries is arbitrary.
- Order intents, leases, strategy runtime, quotes classification, calendars, configuration and web wiring are not modelled.
