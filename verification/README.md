# TaoGateway: a verified model

A Dafny model of the stateful core of the TaoGateway repository, with proofs about whole runs of it.
`dafny verify dfyconfig.toml` checks everything.

The parts of the gateway that are modelled, and what is proved about each:

* **API-key authentication** (`CacheCodec`, `ApiKeyProtocol`, `ApiKeyInvariants`, `RevocationSafety`,
  `KeyNames`, `ApiKeyService`). Requests read the tombstone, the cache and the table and write the cache as
  separate steps; revocation, rotation and update commit to the table and then invalidate Redis. Over every
  interleaving and every Redis failure, an accepted credential is what the table said at most `delay + 60`
  seconds earlier; no request is refused that the table would accept; and a revocation that reached Redis is
  final exactly when the delay from row read to cache write is at most 60 seconds and a failed tombstone check
  is never followed by a served cache read.
* **Rate limiting** (`RateLimit`, `RateLimitRuns`, `RateWindows`). The Redis script and the in-memory fallback
  decide every run of calls alike exactly when the limit is at least one; any interval one window long admits at
  most `2L - 1` requests, and that is attained; eviction changes no decision. The three-window limiter reduces
  to single-window limiters fed with the admitted requests. Its Retry-After is the wait rounded, which can be too
  short; when it is not is stated exactly, and one second more, plus one per clock tick during the check, suffices.
* **Miner scores** (`MinerScoring`, `ScoreFlush`). The moving average has its closed form, stays in range and
  contracts; across flushes, failures and retention every observation is accounted for exactly once.
* **Metagraph sync and miner selection** (`MetagraphSync`, `MinerSelection`). The sync state is a function of
  the sync history. Selections draw from the ranking of the metagraph published last, through a cache stamped
  with its generation, and raise exactly when that metagraph cannot be read.
* **Streaming** (`StreamRelay`). The relayed transcripts are exactly the sentences of a small automaton; each
  tells its reply, one error for each fault; and the miner's rating agrees with what the client was sent.
* **Refresh tokens** (`RefreshTokens`). A token is rotated at most once, a dead one stays dead, clean-up spares
  the living, and each login has at most one live token, also between the two commits of a rotation.
* **Usage** (`UsageAggregation`, `UsageRetention`, `UsageReport`, `UsageReportTotals`). Aggregating and
  re-aggregating days while old records are deleted never loses counts exactly when records are retained for at
  least two days, however slow the process; several processes need two days more than the slowest takes. Reports
  and quotas then show the true totals exactly when every past day in range has been aggregated.

Objects that the source mutates are classes whose methods are proved against specification functions; the
theorems about all runs are about state machines built from those same functions.

Where the code falls short of what its comments or documentation promise, the code is modelled as it is:

* `api_key_service.py:25-28` asserts that the tombstone outlives the cache entry. That alone is not enough: a
  request that read the row before the revocation and writes the cache more than 60 seconds later brings the key
  back once the tombstone has expired (`RevocationSafety.RevocationSafeExactlyWhen`).
* `update_api_key` promises that the next authentication sees the new value. A request still holding the old row
  can write it back (`RevocationSafety.UpdateVisibleExactlyWhen`, with a run in `UpdateOvertaken`).
* The Retry-After of the three-window limiter is built from a rounded TTL and two readings of the clock in whole
  seconds: with 59.4 seconds left a client is told 59 and refused again (`RateWindows.RoundedDownIsTooEarly`,
  `RateWindows.RetrySufficesExactlyWhen`).
* `_evict` purges all keys with the window of the calling request, which is visible to keys checked with a longer
  window (`RateLimitRuns.EvictionIsInvisibleExactlyWhen`). The repository's only caller, `gateway/api/auth.py:59`,
  always uses 60 seconds, so today the failing case cannot arise.
* A metagraph whose size does not convert to an integer is published and then reported as a failed sync
  (`MetagraphSync.FailuresHarmlessExactlyWhen`); until the next publication every selection raises, although the
  cache holds a good list (`MinerSelection.GoodListDoesNotHelp`).
* Registering a subnet a second time restarts its generation and can revive an old cached ranking
  (`MinerSelection.ReRegistrationSafeExactlyWhen`, `MinerSelection.SecondRegistrationMisleads`).
* Logging out with a token whose rotation is under way leaves the rotation's new token alive
  (`RefreshTokens.LogoutEndsTheLoginExactlyWhen`, with a run in `LogoutOvertaken`).
* The aggregation groups by organization and subnet name as well as by key and netuid, but upserts under key,
  netuid and date (`UsageAggregation.AggregationExactExactlyWhen`).
* The configuration allows one day of usage retention, with which a second aggregation on the same day
  overwrites yesterday's counts (`UsageRetention.SecondRunLoses`, `UsageRetention.RecountSafeExactlyWhen`).

## Model

| member | source | states |
|---|---|---|
| CacheCodec.SplitInvertsJoin | gateway/middleware/auth.py:86-91 | splitting a text at its colons gives back the colon-free parts it was joined from |
| CacheCodec.DecodeInvertsEncode | gateway/middleware/auth.py:84-106 | reading a cache value back yields exactly the ids and debug flag written when the token is the writer's, and a mismatch for every other token |
| CacheCodec.DecodeReads | gateway/middleware/auth.py:84-106 | what each shape of cached text is taken for: a hit with its two ids and flag, a digest that does not match, or malformed |
| ApiKeyInvariants.InvThroughout | gateway/middleware/auth.py:57-142 | in every state of every interleaving: tombstones belong to keys inactive for good, cache entries encode rows read while active and expire within the delay plus 60 seconds of that read |
| ApiKeyInvariants.RejectionsAgreeWithDatabase | gateway/middleware/auth.py:57-123 | whenever a request is refused, by tombstone, cached digest or row lookup, the table refuses the token at that same instant |
| ApiKeyInvariants.KeyLimitHolds | gateway/services/api_key_service.py:73-90 | no run of creations, rotations and revocations gives an organization more than 50 active keys |
| RevocationSafety.StalenessIsBounded | gateway/middleware/auth.py:84-142 | under any Redis faults, what a request is told is what the table answered in some state at most the delay plus 60 seconds earlier |
| RevocationSafety.RevocationTakesHold | gateway/services/api_key_service.py:144-157 | even if Redis never hears of it, a revocation takes hold within the delay plus 60 seconds of its commit |
| RevocationSafety.RevocationSafeExactlyWhen | gateway/services/api_key_service.py:24-28 | no request unchecked when the tombstone landed is ever accepted, if and only if the delay is at most 120 - 60 seconds and no failed tombstone check is followed by a served cache read |
| RevocationSafety.UpdateVisibleExactlyWhen | gateway/services/api_key_service.py:226-251 | after an update deleted the cache entry, later requests see the new value if and only if no request in flight still holds the old row |
| RevocationSafety.UpdateOvertaken | gateway/services/api_key_service.py:226-251 | a run from an empty cache in which a request reads the row before the update and can still undo it |
| KeyNames.NumberOfNumberedName | gateway/services/api_key_service.py:46-62 | the pattern reads back the number a generated key name was formed from |
| KeyNames.KeyNumberReads | gateway/services/api_key_service.py:46-61 | a number is read from exactly the names made of the stem and digits, with or without a final newline |
| KeyNames.StripTrims | gateway/services/api_key_service.py:92 | stripping takes off white space only, and all of it at both ends |
| ApiKeyService.AloneIsPath | gateway/middleware/auth.py:34-142 | a request executed without interruption is one of the protocol's paths, whatever its faults |
| ApiKeyService.PrefixKeepsEnvironment | gateway/services/api_key_service.py:184-188 | the prefix of a generated key still tells its environment, so rotation keeps it |
| ApiKeyService.Gateway.GetCurrentApiKey | gateway/middleware/auth.py:34-142 | outcome and stored state are those of the protocol's steps taken in a row, for every combination of faults; a request the table accepts is given the row's own key id, organization and debug flag |
| ApiKeyService.Gateway.TryRedis | gateway/middleware/auth.py:57-106 | the tombstone and cache half either settles the request or leaves it at the row lookup, in step with the protocol |
| ApiKeyService.Gateway.AskDatabase | gateway/middleware/auth.py:108-142 | accepts exactly active rows whose hash matches, with the row's own key id, organization and debug flag, and caches just those for 60 seconds; in step with the protocol |
| ApiKeyService.Gateway.NextKeyName | gateway/services/api_key_service.py:49-62 | the name is one above the highest number the organization ever used and so differs from all its names |
| ApiKeyService.Gateway.CreateApiKey | gateway/services/api_key_service.py:65-98 | refused exactly at 50 active keys; otherwise one fresh active row is added under the stripped or the next generated name |
| ApiKeyService.Gateway.RevokeApiKey | gateway/services/api_key_service.py:127-159 | finds the organization's active key or changes nothing; deactivates it, and with Redis sets the tombstone and drops the cache entry |
| ApiKeyService.Gateway.RotateApiKey | gateway/services/api_key_service.py:162-215 | the new key inherits name and environment, the old one is retired and invalidated, and the number of active keys is unchanged |
| ApiKeyService.Gateway.UpdateApiKey | gateway/services/api_key_service.py:218-253 | only the debug flag of the organization's active key changes, and its cache entry goes without a tombstone |
| RateLimit.FallbackStore.Check | gateway/core/rate_limit.py:46-59 | evicts, then decides and counts by the fixed-window rule; the store never exceeds 10,001 entries |
| RateLimit.FallbackStore.Evict | gateway/core/rate_limit.py:61-74 | nothing happens up to the cap; above it expired entries go, and if needed the oldest, down to exactly 10,000 |
| RateLimit.FallbackStore.DropOldest | gateway/core/rate_limit.py:70-74 | deleting in sorted order leaves exactly 10,000 entries, none of them older than a dropped one |
| RateLimit.SortKeys | gateway/core/rate_limit.py:72 | the keys of the store, each once, in order of window start |
| RateLimit.RateLimiter.RunScript | gateway/core/rate_limit.py:25-31 | increments the key's counter and starts its expiry only when the counter is new |
| RateLimit.RateLimiter.CheckRateLimit | gateway/core/rate_limit.py:98-130 | Redis decides when its reply arrives; otherwise the fallback does, with its own limit and window |
| RateLimitRuns.CountersSimulate | gateway/core/rate_limit.py:25-59 | after any requests both limiters have the same window open, and the fallback's count is the minimum of Redis's count and the limit |
| RateLimitRuns.SoloLimitersAgreeExactlyWhen | gateway/core/rate_limit.py:25-59 | the two rules, each applied to one key's schedule, decide every request alike if and only if the limit is at least one |
| RateLimitRuns.LimitersAgreeExactlyWhen | gateway/core/rate_limit.py:25-74 | given the same calls of any keys, the Redis counters and the shared, evicting store decide every key the cap never drops identically if and only if the limit is at least one |
| RateLimitRuns.SlidingBound | gateway/core/rate_limit.py:46-59 | any half-open interval one window long admits at most twice the limit less one |
| RateLimitRuns.SlidingBoundIsTight | gateway/core/rate_limit.py:46-59 | for every limit and window some schedule attains that bound |
| RateLimitRuns.FixedWindowBound | gateway/core/rate_limit.py:46-59 | the window open for a key has admitted exactly what its entry counts |
| RateLimitRuns.StoreFixedWindowBound | gateway/core/rate_limit.py:46-74 | every fixed window the shared store ever opens for a key admits at most the limit from its beginning to its end, over the whole run |
| RateLimitRuns.DecisionsMatchSolo | gateway/core/rate_limit.py:46-74 | in the shared, evicting store a key the size cap never drops is decided as if it had an unbounded store to itself |
| RateLimitRuns.StoreSlidingBound | gateway/core/rate_limit.py:46-74 | the sliding bound for one key of the shared store, over any run of checks of all keys |
| RateLimitRuns.CountersMatchSolo | gateway/core/rate_limit.py:25-31 | Redis counters of different keys do not disturb each other |
| RateLimitRuns.EvictionIsInvisibleExactlyWhen | gateway/core/rate_limit.py:61-74 | over all stores, eviction with one window leaves every later check with another unchanged, keys dropped by the cap aside, if and only if theirs is not longer |
| RateLimitRuns.FailoverBound | gateway/core/rate_limit.py:113-130 | however often Redis comes and goes, an interval no longer than either window admits at most the sum of both limiters' bounds |
| RateWindows.TieredLimiter.RunScript | scripts/rate_limit.lua:35-70 | admits exactly when all three windows have room, and then charges all three; a refusal charges none |
| RateWindows.TieredLimiter.Bump | scripts/rate_limit.lua:49-63 | one window's counter is incremented, its expiry set only when new |
| RateWindows.ComputeMostRestrictive | gateway/middleware/rate_limit.py:95-127 | on refusal the exhausted window that resets last, otherwise the window with least remaining |
| RateWindows.TieredLimiter.CheckRateLimit | gateway/middleware/rate_limit.py:130-205 | the reply reports each window's remainder as the script left it and its reset from the first clock reading and the rounded TTL, and the most restrictive window with the wait from the second reading |
| RateWindows.ThreeWindows | scripts/rate_limit.lua:35-70 | windows of a minute, a day and thirty days: a request has room when each counts fewer than its limit, is charged to each, and each is shown with its limit, what is left and when it closes to half a second |
| RateWindows.AdmissionCostsOne | scripts/rate_limit.lua:35-70 | an admitted request leaves one less in every window, never less than nothing; a refused one finds a window with nothing left |
| RateWindows.RetryIsRoundedWait | gateway/middleware/rate_limit.py:119-123 | a refused client is told the time until every window has room, rounded by Redis, less the seconds that ticked by between the two clock readings |
| RateWindows.RetrySufficesExactlyWhen | gateway/middleware/rate_limit.py:119-123 | waiting as told suffices if and only if all limits are at least one and the delay from script to reply makes up for rounding and ticks |
| RateWindows.GraceSuffices | gateway/middleware/rate_limit.py:119-123 | waiting one second more, and one per tick between the clock readings, always suffices |
| RateWindows.OneSecondLessIsTooEarly | gateway/middleware/rate_limit.py:119-123 | when the reply takes under half a second, one second less is always too early |
| RateWindows.RoundedDownIsTooEarly | gateway/middleware/rate_limit.py:119-123 | with 59.4 seconds left and instant replies the client is told 59 and refused when it returns |
| RateWindows.OneSecondMoreMayNotSuffice | gateway/middleware/rate_limit.py:119-123 | with a tick between the clock readings one second more can still be refused |
| RateWindows.TierSeesAdmissions | scripts/rate_limit.lua:35-63 | each window's counter is that of a single-window limiter that saw the admitted requests only |
| RateWindows.TierSlidingBound | scripts/rate_limit.lua:35-63 | each of the three windows bounds what passes in any interval of its length by twice its limit less one |
| MinerScoring.ObservationScoreRange | gateway/routing/scorer.py:73-85 | an observation scores between 0 and 1, a failure at most a half and a success at least a half |
| MinerScoring.ObservationPoints | gateway/routing/scorer.py:73-85 | success earns 0.5, a response not found incomplete 0.2, and speed 0.3 in proportion to what is left of the timeout, 30 seconds by default, and nothing after it |
| MinerScoring.FasterScoresMore | gateway/routing/scorer.py:77-79 | of two observations that differ in latency only the faster scores strictly more when it came within the timeout, and the same otherwise |
| MinerScoring.ScoreMarks | gateway/routing/scorer.py:73-85 | a complete success scores 1 when instant and 0.7 from the timeout on; an incomplete response costs exactly 0.2, an unsampled one nothing, a failure 0.5 |
| MinerScoring.MinerScorer.RecordObservation | gateway/routing/scorer.py:91-115 | the first score is taken as it is and later ones move the score by alpha of the difference; requests, successes and the latency sum advance by this observation alone, uid and other miners stay, and successes never exceed requests |
| MinerScoring.MinerScorer.GetScores | gateway/routing/scorer.py:122-128 | the dictionary holds, for every hotkey, exactly the score of that hotkey on that subnet |
| MinerScoring.MinerScorer.GetSnapshotAndReset | gateway/routing/scorer.py:156-185 | the snapshot lists every miner once with its own uid, score and counters, average latency times requests being the latency sum; afterwards the counters are zero and all else unchanged |
| MinerScoring.EmaIsWeightedSum | gateway/routing/scorer.py:97-109 | the moving average of any score sequence is its sum under weights alpha(1-alpha)^k, with (1-alpha)^(n-1) on the first |
| MinerScoring.WeightsSumToOne | gateway/routing/scorer.py:97-109 | those weights add up to one for every length |
| MinerScoring.EmaBetween | gateway/routing/scorer.py:97-109 | the average stays between the least and the greatest score |
| MinerScoring.EmaContracts | gateway/routing/scorer.py:105-109 | k more observations of one score shrink the distance to it by exactly (1-alpha)^k |
| MinerScoring.WeightsNonNegative | gateway/routing/scorer.py:97-109 | for alpha in [0, 1] none of the weights is negative, so the closed form is a convex combination |
| MinerScoring.FailuresDrainQuality | gateway/routing/scorer.py:73-115 | once a miner only fails, whatever others do in between, its stored score after k failures is at most 0.5 + 0.5(1-alpha)^k |
| MinerScoring.QualityIsEma | gateway/routing/scorer.py:91-115 | however observations of different miners interleave, each miner's score is the moving average of its own |
| MinerScoring.CountersAreSums | gateway/routing/scorer.py:98-115 | requests, successes and latency sum are those of the miner's own observations; its uid is that of the first and its time that of the last |
| MinerScoring.QualityInUnitInterval | gateway/routing/scorer.py:91-115 | every stored score lies in [0, 1] after any run of observations |
| ScoreFlush.UpsertAllIsUpserted | gateway/tasks/score_flush.py:47-75 | upserting the snapshot line by line, in whatever order, adds each miner's counters to its row once and skips idle miners |
| ScoreFlush.ScoreFlushTask.FlushOnce | gateway/tasks/score_flush.py:41-83 | counters leave memory in any case; the table gets all upserts and the retention delete, or nothing exactly when a statement fails |
| ScoreFlush.CountsAreConserved | gateway/tasks/score_flush.py:41-83 | over every interleaving each miner's observations equal those in memory, in flight, in the table, lost to failed flushes and deleted by retention; likewise its successes |
| ScoreFlush.ProperThroughout | gateway/tasks/score_flush.py:41-83 | successes never exceed requests in memory, in flight or in the table |
| ScoreFlush.FlushKeepsWhatItWrites | gateway/tasks/score_flush.py:77-83 | the retention delete never removes a row written in the same transaction |
| ScoreFlush.FlushedRow | gateway/tasks/score_flush.py:47-83 | after a flush a miner with new requests has a row with its score, its counts added, the new average latency and the time of the flush, under the uid the row began with; any other row is untouched, or gone if older than the retention |
| ScoreFlush.ScoresReachTheTable | gateway/tasks/score_flush.py:41-83 | a miner that lost nothing to failed flushes or retention and has nothing left to write is in the table with its present score |
| MetagraphSync.MetagraphManager.RegisterSubnet | gateway/routing/metagraph_sync.py:59-60 | the subnet gets a fresh unsynced state object; the others keep theirs |
| MetagraphSync.MetagraphManager.SyncSubnet | gateway/routing/metagraph_sync.py:78-112 | field by field: a returned metagraph is published with its two clock readings and the next generation, even when its size cannot be logged, which then counts as a failure; an exception only counts; a cancellation changes nothing; no other subnet changes |
| MetagraphSync.MetagraphManager.SyncAll | gateway/routing/metagraph_sync.py:114-121 | every registered subnet is synced exactly once, none disturbing another |
| MetagraphSync.SyncStateIsHistory | gateway/routing/metagraph_sync.py:78-112 | generation counts publications, metagraph and both clock readings are those of the latest published, the error is that of the last sync unless it succeeded, and failures are those since the last success |
| MetagraphSync.StaleExactlyWhen | gateway/routing/metagraph_sync.py:31-38 | stale if and only if nothing was published or the latest publication is older than the threshold |
| MetagraphSync.FailuresHarmlessExactlyWhen | gateway/routing/metagraph_sync.py:78-112 | over a run of fetches, no sync reported as failed changed metagraph, generation or staleness clock if and only if every returned metagraph had a size that converts to an integer |
| MinerSelection.MinerSelector.BuildEligible | gateway/routing/selector.py:45-71 | the loop and stable sort yield the ranking, or nothing when the size does not convert or exceeds the neurons |
| MinerSelection.RankedIsRanking | gateway/routing/selector.py:45-71 | the ranking holds exactly the uids passing every filter, each once, by descending incentive with ties in ascending uid |
| MinerSelection.RankingIsUnique | gateway/routing/selector.py:45-71 | that description determines the list |
| MinerSelection.WeightRange | gateway/routing/selector.py:101-108 | every weight is the larger of 1e-9 and a value between the incentive and the quality score |
| MinerSelection.WeightMoves | gateway/routing/selector.py:101-108 | the weight is the incentive moved towards the quality score by exactly the quality weight's share of the difference, the incentive itself without a score or at weight 0, the quality score at weight 1, and at least 1e-9 |
| MinerSelection.MinerSelector.SelectMiner | gateway/routing/selector.py:73-120 | the choice comes from the cached or rebuilt list, each candidate weighted by its incentive moved towards its own miner's stored score by the quality weight's share, and the cache is stamped with the generation used; a list that cannot be built raises and leaves the cache alone |
| MinerSelection.CacheRefinesRecomputation | gateway/routing/selector.py:78-91 | after any syncs and selections of any subnets, the list used is the ranking of the metagraph published last, and selecting raises if and only if that metagraph cannot be read |
| MinerSelection.GoodListDoesNotHelp | gateway/routing/selector.py:84-91 | a run after which the cache holds a good list and selecting raises |
| MinerSelection.ReRegistrationSafeExactlyWhen | gateway/routing/metagraph_sync.py:59-60 | the cache survives a second registration if and only if it holds nothing for the subnet |
| MinerSelection.SecondRegistrationMisleads | gateway/routing/metagraph_sync.py:59-60 | four calls from an empty manager after which selections can be served an outdated list |
| StreamRelay.Relay.RecordScore | gateway/subnets/base.py:87-124 | one observation with the given latency; an unsampled success loses its completeness verdict; without a scorer nothing happens |
| StreamRelay.Relay.RelayItem | gateway/subnets/base.py:348-372 | what one item sends and whether it ends the loop, in the order of the checks |
| StreamRelay.Relay.RelayItems | gateway/subnets/base.py:343-372 | what the loop sends for any items, and whether it ended by exhaustion, disconnect or a raised fault |
| StreamRelay.Relay.StreamGenerator | gateway/subnets/base.py:281-410 | each fault is told by its own error (the call timing out, nothing returned, a timeout mid-stream, any other exception), the chunks before the stop are shown in order after the latency of the first, and there is one observation, successful iff the regular stop was sent, or none when the client left |
| StreamRelay.TranscriptsAreTheLanguage | gateway/subnets/base.py:281-410 | the transcripts are exactly the sentences of the automaton: complete for clients that stay, broken off before anything or after some content for those that left |
| StreamRelay.OneTerminator | gateway/subnets/base.py:406-410 | the terminator is sent exactly once and last to a client that stays and never to one that left |
| StreamRelay.RatingMatchesTranscript | gateway/subnets/base.py:388-410 | the miner is rated a success iff the regular stop was sent, a failure iff an error was sent, and not rated iff neither was |
| StreamRelay.TranscriptTellsReply | gateway/subnets/base.py:301-410 | the same of the transcript as a function of the reply: which error is sent iff which fault occurred, and the texts sent are the chunks of the reply up to the stop |
| StreamRelay.ItemFate | gateway/subnets/base.py:348-372 | what becomes of one item, case by case of the call that raises: first the poll, then the client having gone, then the text, then the comment and the rendering |
| RefreshTokens.RotationSparesTheLiving | gateway/services/auth_service.py:155-167 | revoking and cleaning up take away the life of the rotated token and of no other |
| RefreshTokens.RotationRows | gateway/services/auth_service.py:120-167 | row by row: the rotated token is revoked, the organization's other expired or revoked ones are deleted, the new one expires after the lifetime, and every other row stays |
| RefreshTokens.AuthService.CreateRefreshToken | gateway/services/auth_service.py:120-133 | one row is added, expiring after the configured lifetime |
| RefreshTokens.AuthService.RotateRefreshToken | gateway/services/auth_service.py:136-173 | refused exactly for unknown, revoked or expired tokens, in that order; otherwise the old token is dead afterwards, and the new one alive unless the process died between the commits |
| RefreshTokens.AuthService.RevokeRefreshToken | gateway/services/auth_service.py:176-184 | an unrevoked token is revoked; anything else changes nothing |
| RefreshTokens.SpentForever | gateway/services/auth_service.py:148-167 | over every interleaving a token once revoked, expired or deleted is never accepted again |
| RefreshTokens.RotatedOnce | gateway/services/auth_service.py:142-167 | no token is rotated twice in any run |
| RefreshTokens.OneLiveTokenPerLogin | gateway/services/auth_service.py:136-173 | a login never has two live tokens, and none while a rotation is between its commits |
| RefreshTokens.LoggedOutExactlyWhen | gateway/services/auth_service.py:136-184 | a login can never be used again if and only if it has no live token and no rotation under way |
| RefreshTokens.LogoutEndsTheLoginExactlyWhen | gateway/services/auth_service.py:176-184 | a logout ends the login for good if and only if its token was still unrevoked when written, or nothing of the login was left |
| RefreshTokens.LogoutOvertaken | gateway/services/auth_service.py:176-184 | a run from an empty table in which a logout leaves the login alive |
| UsageAggregation.UsageAggregationTask.AggregateDay | gateway/tasks/usage_aggregation.py:38-105 | all lines are upserted and counted, or none if any statement fails |
| UsageAggregation.UsageAggregationTask.CleanupOldRecords | gateway/tasks/usage_aggregation.py:107-116 | exactly the records older than the retention go, and their number is reported |
| UsageAggregation.UsageAggregationTask.RunOnce | gateway/tasks/usage_aggregation.py:118-138 | yesterday is aggregated, and records are deleted only after that committed |
| UsageAggregation.OutcomesPartition | gateway/tasks/usage_aggregation.py:52-54 | successes and errors never overlap, and make up all requests if and only if no status is below 200 |
| UsageAggregation.OutcomesByStatus | gateway/tasks/usage_aggregation.py:52-54 | successes are the matching records with a status from 200 to 399 and errors those from 400 on, counted by position |
| UsageAggregation.RecordAdds | gateway/tasks/usage_aggregation.py:50-62 | one more record adds one request and its own tokens to the totals of the queries it matches, and nothing to others |
| UsageAggregation.QueriesSelect | gateway/tasks/usage_aggregation.py:43-62 | a group, a slot and an organization's report each take exactly the records that agree with every column they name and lie between the midnights of their days |
| UsageAggregation.ExactWhenDetermined | gateway/tasks/usage_aggregation.py:48-103 | under determination a record's slot shows the totals of all records in it, under the organization and name it had before or the record's own |
| UsageAggregation.AggregationExactExactlyWhen | gateway/tasks/usage_aggregation.py:48-103 | whatever the order of the lines and the state of the table, all slots of the day show their true totals if and only if no two groups share a slot |
| UsageAggregation.OthersUntouched | gateway/tasks/usage_aggregation.py:72-100 | slots without records that day keep their summaries |
| UsageRetention.SummariesStayTrue | gateway/tasks/usage_aggregation.py:107-138 | with two days of retention for one process however slow, or two more than the delay for several, in every state of every run each summary shows the totals of all records ever made in its slot, and no record of an aggregated day lacks one |
| UsageRetention.RecountSafeExactlyWhen | gateway/tasks/usage_aggregation.py:107-166 | for one process, aggregating again never loses counts, whatever the delay, if and only if retention is at least two days |
| UsageRetention.SecondRunLoses | gateway/tasks/usage_aggregation.py:156-166 | with a day's retention a second run on the same day loses counts |
| UsageRetention.OverlapSafeExactlyWhen | gateway/tasks/usage_aggregation.py:107-138 | for several processes on one database, if and only if retention exceeds the delay from reading the date to aggregating by two days |
| UsageReport.AggregateToMonthly | gateway/services/usage_service.py:163-180 | every month with entries once, in order, with the sums and the highest percentiles of its days |
| UsageReport.MonthlyConserves | gateway/services/usage_service.py:163-180 | folding into months keeps every total |
| UsageReport.MonthHoldsItsDays | gateway/services/usage_service.py:166-171 | a month takes every entry of its own days, as often as there are, and no other |
| UsageReport.PeakReached | gateway/services/usage_service.py:176-179 | a month's percentile is that of one of its days, or zero |
| UsageReport.Gather | gateway/services/usage_service.py:76-95 | rows are filed under their netuid in order, under the name of the subnet's first row |
| UsageReport.EntriesShowRows | gateway/services/usage_service.py:76-95 | each row of a subnet is shown by one entry with its day, counts and percentiles, in order, under the first row's name |
| UsageReport.GetUsageSummaries | gateway/services/usage_service.py:28-160 | one line per subnet with rows, by ascending netuid, from summaries up to yesterday and records of today, by day or folded by month |
| UsageReport.GetQuotaStatus | gateway/services/usage_service.py:183-243 | each tracked subnet is charged with its summaries plus exactly the total of its row for today, or its summaries alone without one, and what remains is never negative |
| UsageReport.RowCharges | gateway/services/usage_service.py:226-238 | with one row per subnet, a row raises what its subnet is charged by its total, and a subnet without a row is charged its summaries alone |
| UsageReportTotals.SummariesAgainstLedger | gateway/services/usage_service.py:46-75 | the summaries a query reads add up to the records ever made in its scope, and fall short of them if one lacks its summary |
| UsageReportTotals.LiveAgainstRecords | gateway/services/usage_service.py:97-133 | today's rows add up to today's records |
| UsageReportTotals.TodayIsCharged | gateway/services/usage_service.py:210-238 | given the answer of the query, one row per subnet with the number of its records today, what is charged is the summaries plus today's records |
| UsageReportTotals.DailyReportIsChronological | gateway/services/usage_service.py:44-100 | the days reported lie in the range and in order, summaries only before today and live records only for today |
| UsageReportTotals.ReportExactExactlyWhen | gateway/services/usage_service.py:28-160 | a report by day or by month shows the true totals of every subnet if and only if each past record in range has been aggregated |
| UsageReportTotals.ReportTrueOnceAggregated | gateway/tasks/usage_aggregation.py:38-138 | in a run with that retention, from the step that aggregates the last past day in range on, reports show the true totals of all records ever made, whatever is aggregated again or deleted later |
| UsageReportTotals.QuotaExactExactlyWhen | gateway/services/usage_service.py:183-243 | the usage charged is the month's true number of requests if and only if its past records have been aggregated; today is never counted twice |

## Left out

Assumptions under which the statements hold:

- Each SQL transaction and each Redis command or MULTI pipeline is one atomic step; row locks and isolation anomalies, such as two creations in an organization without active keys, are not modelled.
- Hashes are collision-free (`CacheCodec.Digest` is injective, key prefixes are unique) and random tokens never repeat, so a prefix or token names its row.
- Floats are reals; clocks never go back, and Redis and the process share one clock, with expiry exact to the instant. Redis's TTL reply is the time left rounded to the nearest second.
- Redis does not lose keys before they expire.
- One process flushes scores, and one process runs the usage aggregation unless `OverlapSafeExactlyWhen` is meant; the container starts a single one.
- Records carry the time of the transaction that inserts them, and the queries of one report see one state of the database.

What the repository does that the model does not:

- RateLimitRuns.StoreSlidingBound: all calls of a run use one limit and window; what mixed windows change is `EvictionIsInvisibleExactlyWhen`.
- `try_rehash` of argon2 hashes, password login, signup and JWT signing and checking.
- Key names: `\d` is taken as an ASCII digit and `strip` removes ASCII white space only.
- Cache values with ids in other spellings that Python's `uuid.UUID` accepts; nothing in the gateway writes them.
- Debug logs, listing of keys, admin functions, the other two authentication dependencies, routes, schemas, migrations, security headers, health and dashboard.
- The three-window limiter failing closed when Redis raises, and the header formatting.
- `MinerScorer`'s lock and `get_miner_details`; a miner's state object is a value in the model's dictionary, which nothing else refers to.
- Two flushes at once; `ScoreFlushTask` runs one at a time.
- `is_global` of an IP address is the parameter `safe`; the weighted draw is any candidate, since every weight is positive.
- The non-streaming `execute`, HTML sanitizing of chunks, chunk ids and timestamps, clients that close the generator early, adapters without streaming methods, and a synapse that cannot be built.
- Latency percentiles of the aggregation and report queries are inputs; a day's month is the parameter `calendar`, and ISO dates sort as their day or month numbers.
- The time zone of `DATE(created_at)`: a record's date is that of its instant in UTC.
- Usage recorded with a delay after its day was aggregated.
