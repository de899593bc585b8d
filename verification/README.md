# EdgeQuota in Dafny

A model of the parts of EdgeQuota whose correctness does not show from reading one function: its rate limiters, its shared
response cache, its external-limits client, its circuit breakers, its usage-event ring, and the protocols by which proxies
drain and Redis clients change hands. `dafny verify dfyconfig.toml` verifies the whole project.

Code that changes fields or arrays in place is a class whose methods are proved against a function of the old state.
Protocols between goroutines are state machines whose steps are the source's lock regions, atomic operations, channel
operations or Redis commands. A disabled step leaves the state alone, so "for all action sequences" means "in every
interleaving". Runs are folds over sequences, and the main results quantify over all of them.

## What is modelled

**Rate limiting.** `TokenBucket` is the Redis script, as a function and as the script's own in-place evaluation, with the
admission bounds and the meaning of the two times it quotes. `BucketClock` says which clocks the window bound needs.
`BucketExpiry` adds key expiry, and proves for which parameters a client can notice it; `BucketParams` connects that to the
configuration. `MemoryBucket` is the in-memory fallback, and the exact condition under which it decides as the script does.

**Response cache.** `Text` has the string operations, with what fixes each. `CacheKey` gives the keys and what they identify,
and `KeyCollision` exactly which are ambiguous. `Directives` and `CacheControl` give the splitter, the directive parser, the
storing rules and Vary; `FieldText`, `StoringRules` and `VaryText` say what these do on the text of the header fields, without
the functions that do it. `CachingWriter` is the capturing response writer over every call sequence, and `StoredResponse` says
exactly what it stores. `CacheRun` puts writer, store and two-step lookup together over every run, and `CacheCollision` shows
what equal keys of different requests do to a run. `TagIndex` is the tag index one operation at a time, `TagPurge` the same
with concurrent writes and purges, command by command, and `TagRace` one write against one purge in every order, with any
waits.

**Clients and protocols.** `CircuitBreaker` is both breakers and the auth client around one; `BreakerMap` the capped map of
them. `LookupKey`, `LimitsLog` and `ExternalLimits` are the external-limits client with its fresh and stale copies, its
breakers, its semaphore and singleflight; `LimitsAnswers` is what its callers get. `EventRing` and `EmitterWakeup` are the
event emitter. `ProxyDrain` is proxy admission and shutdown, and `RedisOwnership` is who may close which Redis client.

## Where the code and its documentation differ

The model follows the code.

- `reset_after` is documented as the time until the bucket is full (internal/ratelimit/limiter.go:110) but is computed before
  the token is taken. `TokenBucket.ResetHonestIff` says exactly when the documentation is right; up to one token per
  microsecond, iff the call finds less than a token and so is denied.
- The script takes whatever clock it is given. `BucketClock.WindowBoundIff`: the window bound holds for all rates and bursts iff
  the clock never goes back. `TokenBucket.StretchBound` is what holds for all clocks. The in-memory bucket mints no tokens
  from disorder: `MemoryBucket.NoTokensFromDisorder`.
- The in-memory fallback sees nanoseconds and the script microseconds. `MemoryBucket.SameDecisionsIff`: they decide alike for
  all rates and bursts iff the calls are whole microseconds apart.
- With the default one-second period and no `min_ttl`, an idle client gets its burst back early. `BucketParams.OneSecondPeriod`
  says exactly when not.
- Half-open is documented as a single probe (internal/auth/auth.go:77-79). `CircuitBreaker.HalfOpenAdmitsMany`: any number of
  callers go ahead before the first of them reports.
- The shared breaker stub is documented as inert (internal/ratelimit/external.go:257-263). `CircuitBreaker.StubIsNotInert`.
- The floor that keeps the breaker count from going negative makes it drift upwards instead, by as much as one for each goroutine:
  `BreakerMap.CounterDrift`, `BreakerMap.DriftIsBounded`. `BreakerMap.DriftFillsTheCapIff`: it can fill the cap over
  an empty map iff there are at least as many goroutines as the cap, 10000 by default.
- A quoted string left open on one Cache-Control line swallows the next line. `CacheControl.LaterLinesObeyedIff`: restrictive lines
  after a value are obeyed iff it closes its quotes or is restrictive already. `CacheControl.UnclosedLineSwallows` is an instance.
- A `max-age` above 9223372036 seconds overflows the duration: `CacheControl.SecondsExactIff`.
- Nothing in a cache key or lookup key is escaped. `CacheKey.KeyInjective` and `LookupKey.KeyIdentifies` hold among requests
  without the delimiters. With delimiters in queries, in the decoded paths of lookups and in values,
  `KeyCollision.KeyCollides` and `LookupKey.KeyCollides` say exactly which keys are also those of other content. Of the cache
  keys over a non-empty Vary list, these are exactly the ones by which some run serves an unfit response:
  `CacheCollision.UnfitIff`. What is served without a Vary list is always fit: `CacheRun.PlainIsFit`.
- A tag set is documented to live as long as its longest-lived member (internal/cache/cache.go:253-261). The SADD and the script
  are two commands and a purge is three, so a set may lapse between the two, and a purge may delete a set that was added to:
  `TagPurge.LapseOrphans`, `TagPurge.PurgeOrphans`. `TagPurge.CalmIff` is the exact condition over whole runs, and
  `TagIndex.LapseIff` and `TagRace.RaceIff` the exact conditions for a lone write and for one write against one purge, with time
  passing in between.
- Close does not always close every limiter and cache client. `RedisOwnership.ShutdownIff` is the exact condition; a recovery loop past its
  ping at the swap and a cache resolve in progress at the release are what break it: `RedisOwnership.InstallAfterShutdown`,
  `RedisOwnership.StoreAfterShutdown`.
- `resolveCacheRedis` is documented as idempotent, which asks its callers not to overlap:
  `RedisOwnership.OverlappingResolvesLeak`. The constructor, and the reloads on the one goroutine of the configuration watcher, do
  not.

## Model

| member | source | states |
|---|---|---|
| `TokenBucket.BucketKey.Eval` | internal/ratelimit/limiter.go:45-98 | the script run in place on hash and expiry leaves the key and gives the reply of `Script`, about which the rows below are |
| `TokenBucket.LevelInRange` | internal/ratelimit/limiter.go:54-60 | the refilled level lies between zero and the capacity |
| `TokenBucket.TokensInRange` | internal/ratelimit/limiter.go:45-97 | over every run with overrides per call and timestamps in any order, tokens stay within [0, burst of the last call] |
| `TokenBucket.AdmittedPlusLeft` | internal/ratelimit/limiter.go:45-97 | conservation: calls admitted plus tokens left never exceed capacity plus rate times the forward clock moves |
| `TokenBucket.RunSplit` | internal/ratelimit/limiter.go:45-97 | a run splits anywhere, the later calls starting from the key the earlier ones left |
| `TokenBucket.StretchBound` | internal/ratelimit/limiter.go:45-97 | in any contiguous stretch of any run, any clock and any overrides, no more is admitted than the budget of that stretch |
| `TokenBucket.WindowBound` | internal/ratelimit/limiter.go:45-97 | on a clock that never goes back at most burst + rate × window is admitted in any window of any run |
| `BucketClock.AdvanceCoversWindow` | internal/ratelimit/limiter.go:54-60 | the forward moves of the clock cover the window, and exceed it iff the clock once goes back |
| `BucketClock.Unbounded` | internal/ratelimit/limiter.go:45-97 | on every clock that goes back, a bucket of capacity one refilled by all forward moves together admits more than the window bound |
| `BucketClock.WindowBoundIff` | internal/ratelimit/limiter.go:45-97 | burst + rate × window bounds what is admitted, for every rate and every burst, iff the clock never goes back |
| `TokenBucket.DenialQuotesDue` | internal/ratelimit/limiter.go:90-97 | a denial quotes the first microsecond at which the level line reaches one token |
| `TokenBucket.RetryExact` | internal/ratelimit/limiter.go:54-97 | after a denial, any number of polls before now + retry are denied and quote the same instant, and the first poll at or after it is admitted |
| `TokenBucket.ResetExact` | internal/ratelimit/limiter.go:54-97 | a later call finds the bucket full iff it comes at least reset_after past a denial, or past an admission long enough for the taken token too |
| `TokenBucket.ResetHonestIff` | internal/ratelimit/limiter.go:61-87 | the bucket is full at now + reset_after iff the call finds less than a token or rounding up hides the token taken; for rates up to one token per microsecond, iff it finds less than a token |
| `TokenBucket.RemainingExact` | internal/ratelimit/limiter.go:77-97 | for every key, parameters and instant: of any number of further calls at the same instant exactly `remaining` are admitted; the limit is the burst, and a denial has nothing remaining |
| `TokenBucket.UnmeteredRun` | internal/ratelimit/limiter.go:45-47 | without a rate every call of every run is admitted with the whole burst remaining, and the key is left alone |
| `BucketExpiry.NotDroppedBefore` | internal/ratelimit/limiter.go:49-95 | a key is never lost sooner than half a TTL less 999999 µs after its last access |
| `BucketExpiry.InvisibleRun` | internal/ratelimit/limiter.go:49-95 | if the bucket refills within that time, every run with losses at any legal instant gets the replies of a bucket that never expires |
| `BucketExpiry.ExposedByIdling` | internal/ratelimit/limiter.go:49-95 | a bucket slower than half a TTL plus that time is told apart by emptying it and idling |
| `BucketExpiry.ExposedByLateBurst` | internal/ratelimit/limiter.go:66-85 | a bucket slower than that time is told apart by a burst late in the refresh interval |
| `BucketExpiry.ExposedByDeniedRefresh` | internal/ratelimit/limiter.go:66-95 | at capacity one, a denial that refreshes the expiry tells the rest apart |
| `BucketExpiry.InvisibleIff` | internal/ratelimit/limiter.go:49-95 | expiry is invisible on every run if and only if the bucket refills in time or runs in lockstep with its refreshes |
| `BucketParams.RateSign` | internal/middleware/chain.go:342-367 | the rate is never negative and is positive iff the average is |
| `BucketParams.AveragePerPeriod` | internal/middleware/chain.go:342-352 | the resolved rate makes exactly `average` tokens in one period, the period being one second unless a positive one is given; per microsecond for the script |
| `BucketParams.GainsAverage` | internal/middleware/chain.go:342-352 | a bucket gains its share of the average in any time, up to the burst |
| `BucketParams.AverageBound` | internal/middleware/chain.go:342-352 | in every run a window admits at most the burst and average · window / period |
| `BucketParams.TtlCovers` | internal/middleware/chain.go:354-358 | without min_ttl the TTL covers two periods, and less than two seconds more, from one token a second on; for slower rates it outlasts the refill of one token iff seven days do |
| `BucketParams.MinTtlRaises` | internal/middleware/chain.go:360-364 | min_ttl only raises the TTL, to itself rounded up |
| `BucketParams.TtlAtLeastTwo` | internal/middleware/chain.go:342-367 | the TTL is at least two seconds and at least a positive min_ttl rounded up |
| `BucketParams.ParsedIsSane` | internal/middleware/chain.go:342-367 | a positive average yields parameters with positive rate, burst of at least one and TTL of at least two seconds |
| `BucketParams.LongTtlRefills` | internal/middleware/chain.go:342-367 | a TTL of 2·(burst/rate + 1) s or more lets the bucket refill before its key can be lost |
| `BucketParams.MinTtlHidesExpiry` | internal/middleware/chain.go:342-367 | a min_ttl of 2·(burst/rate + 1) s or more makes expiry invisible on every run |
| `BucketParams.OneSecondPeriod` | internal/middleware/chain.go:342-367 | without min_ttl and with the default period, expiry is invisible iff average ≥ 1000000 · max(burst, 1) |
| `MemoryBucket.BucketCell.Refill` | internal/ratelimit/fallback.go:107-123 | refill, cap and take in place on one bucket is `Take` of its fields |
| `MemoryBucket.KeyLimiter.Check` | internal/ratelimit/fallback.go:75-124 | a call for one key, disabled limiter and first call included, is `Allow` of its bucket |
| `MemoryBucket.PotentialRun` | internal/ratelimit/fallback.go:87-123 | over any timestamps, tokens − rate × lastTime plus the number admitted never exceeds its first value |
| `MemoryBucket.NoTokensFromDisorder` | internal/ratelimit/fallback.go:87-123 | at any admitting call the number admitted so far is at most burst + rate × time since creation, for timestamps in any order |
| `MemoryBucket.TwinRun` | internal/ratelimit/fallback.go:75-124 | along any monotone run of calls whole microseconds apart, the in-memory bucket and the Redis hash hold the same tokens |
| `MemoryBucket.FirstDisagreement` | internal/ratelimit/fallback.go:75-124 | the first call that is not whole microseconds after the first is one that, for some rate, just one of the two admits |
| `MemoryBucket.SameDecisionsIff` | internal/ratelimit/fallback.go:75-124 | on a monotone clock the in-memory limiter and the script decide alike at every call, for every rate and burst, iff the calls are whole microseconds apart |
| `MemoryBucket.UnmeteredAdmitsAll` | internal/ratelimit/fallback.go:76-78 | with a rate of zero or less both admit everything |
| `Text.SortSorts` | internal/cache/cache.go:344-346 | sorting gives an ascending rearrangement |
| `Text.SortOfPermutation` | internal/cache/cache.go:344-346 | lists with the same content sort to the same list |
| `Text.JoinOfSplitOn` | internal/cache/cache.go:539 | splitting at a separator and joining gives the text back, and no piece holds the separator |
| `Text.SplitOfJoinOn` | internal/cache/cache.go:539 | so splitting is the only function that does that: pieces without the separator are what their join splits into |
| `Text.PiecesAreItems` | internal/cache/cache.go:539 | the pieces are exactly the texts that stand between separators or ends |
| `Text.CanonicalIs` | internal/cache/cache.go:546 | the canonical form of a name differs from it in case alone and has capitals exactly at the start and after hyphens; other text than tokens is left alone |
| `Text.SameCanonicalIff` | internal/cache/cache.go:524 | two spellings have one canonical form iff they differ in case alone |
| `CacheKey.KeyFromRequest` | internal/cache/cache.go:337-354 | the builder loop computes the key over the sorted names |
| `CacheKey.BaseKeyInjective` | internal/cache/cache.go:320-330 | equal base keys mean equal method, path and query, whatever the query holds |
| `CacheKey.PipesCountNames` | internal/cache/cache.go:337-354 | a key has one pipe more than it has Vary'd names |
| `CacheKey.KeyInjective` | internal/cache/cache.go:320-354 | keys are equal iff method, path and query are, the Vary lists have the same content, and the requests agree on the first value of each listed header |
| `CacheKey.VaryKeyDiffers` | internal/cache/writer.go:188-191 | a key over a non-empty Vary list is longer than the base key, so the pointer is always written |
| `CacheKey.AgreeIff` | internal/cache/cache.go:347-352 | requests agree on a list of canonical names iff the first values of each header are the same, a missing one counting as empty |
| `KeyCollision.EqualKeys` | internal/cache/cache.go:320-354 | equal keys of requests with arbitrary queries and values have the same method, the same path and the same text after it |
| `KeyCollision.KeyCollides` | internal/cache/cache.go:320-354 | other content has the same key iff there is a query and either a Vary list or a pair inside the query, or no query and two names or more, or one name whose value holds a pair with a later name or repeats its own pair |
| `CacheKey.QueryTwin` | internal/cache/cache.go:320-354 | every request with a query has, for every Vary list, another with a longer query and the same key |
| `CacheKey.ValueTwin` | internal/cache/cache.go:337-354 | for every request and Vary list of two or more, another request with a longer first value has the same key for the first name alone |
| `Directives.SplitDirectives` | internal/cache/cache.go:391-416 | the scanning loop computes `Split` |
| `Directives.JoinOfSplit` | internal/cache/cache.go:391-416 | joining the directives with commas gives back every value |
| `Directives.SplitTwo` | internal/cache/cache.go:391-416 | two values joined by a comma split into the directives of both iff the first closes its quotes |
| `Directives.SplitJoinedIff` | internal/cache/cache.go:391-416 | splitting joined field lines equals splitting each line iff every line but the last closes its quotes (section 5.6.4 of RFC 9110) |
| `Directives.DirectivesAreWhole` | internal/cache/cache.go:391-416 | no directive has a comma outside quotes: splitting one again gives it back |
| `Directives.SplitIsGrouping` | internal/cache/cache.go:391-416 | a value made of characters and quoted strings with escapes closes its quotes, and splits at its bare commas and nowhere else (section 5.6.4 of RFC 9110) |
| `Directives.ClosedIff` | internal/cache/cache.go:391-416 | a value closes its quotes iff it is so made |
| `CacheControl.ParseCacheControl` | internal/cache/cache.go:423-458 | the parsing loop computes the fold of the directives, about which the rows below are |
| `CacheControl.FlagsAreMentions` | internal/cache/cache.go:423-458 | each flag is set iff some directive has its name, with or without an argument; `FieldText.FlagsIff` says it on the text |
| `CacheControl.AgesAreLast` | internal/cache/cache.go:423-458 | max-age is the last positive one, s-maxage the last numeric one, zero included |
| `FieldText.TrimParts` | internal/cache/cache.go:427-430 | trimming takes the given characters off both ends, all of them, and nothing else |
| `FieldText.NameIff` | internal/cache/cache.go:426-427 | a directive has a name iff its text is white space, the name in any case, white space, and then its end or an equals sign |
| `FieldText.FlagsIff` | internal/cache/cache.go:423-458 | from the text of a whole value: each flag is set iff the value somewhere outside quotes reads as its name, in any case and white space, with any argument or none |
| `FieldText.AtoiIff` | internal/cache/cache.go:434 | text is read as an integer iff it is an optional sign, zeros, and the decimal numeral of it, within 64 bits |
| `FieldText.AgeIff` | internal/cache/cache.go:426-443 | a directive gives a name and a number iff its text is the name, an equals sign, and the number in white space and quotes |
| `FieldText.AgesAreText` | internal/cache/cache.go:432-443 | max-age is the last positive one and s-maxage the last numeric one, read off the text; zero or none if there is none |
| `FieldText.MaxAgeRoundTrip` | internal/cache/cache.go:423-458 | max-age with the numeral of n, bare, spaced or quoted, in any case, gives n seconds for 1 ≤ n ≤ 9223372036 |
| `CacheControl.SecondsExactIff` | internal/cache/cache.go:433-443 | delta-seconds become a duration without overflow iff they are at most 9223372036 |
| `CacheControl.SecondsWraps` | internal/cache/cache.go:435 | above that it is a 64-bit duration that differs by a multiple of 2 to the 64 |
| `CacheControl.StaysRestrictive` | internal/cache/cache.go:482-496 | a restrictive value stays restrictive whatever lines are joined to it, open quotes or not |
| `CacheControl.LaterLinesObeyedIff` | internal/cache/cache.go:482-496 | every restrictive line joined to a value makes the whole restrictive iff the value closes its quotes or is restrictive already |
| `CacheControl.LinesObeyed` | internal/cache/cache.go:482-496 | over any number of lines, a restrictive line whose predecessors joined close their quotes makes the whole restrictive |
| `CacheControl.IsCacheable` | internal/cache/cache.go:482-509 | the decision and TTL computed are those of `Cacheable`, whose TTL is always positive |
| `CacheControl.CacheableIsPermitted` | internal/cache/cache.go:482-509 | a cacheable response is a 200 or 301 without Set-Cookie, and no line whose predecessors joined close their quotes holds no-store, no-cache or private; an authorized request needs an explicit permission (section 3.5 of RFC 9111) |
| `StoringRules.CookieIff` | internal/cache/cache.go:518-529 | a response has a Set-Cookie iff some field is named so in any case, or so after the trailer prefix |
| `StoringRules.CacheableIff` | internal/cache/cache.go:482-509 | on the text of the fields: a response may be stored for a time iff it is a 200 or 301, has no Set-Cookie, states no restriction, gives that positive time by s-maxage before max-age, and states a permission if the request was authorized |
| `StoringRules.RestrictiveIff` | internal/cache/cache.go:494 | a line is restrictive iff its text states no-store, no-cache or private |
| `CacheControl.UnclosedLineSwallows` | internal/cache/cache.go:482-509 | an instance: with an open quote on the first line, a no-store on the second is not seen and the response is stored |
| `CacheControl.AddLine` | internal/cache/cache.go:539-549 | the inner loop adds the names of one line, or finds a star |
| `CacheControl.ParseVary` | internal/cache/cache.go:536-551 | the two loops compute the names over all lines, or fail; the rows below say which names |
| `CacheControl.VaryUsableIff` | internal/cache/cache.go:536-551 | Vary is usable iff no item is a star, and then names exactly the non-empty items in the canonical form that headers are looked up by |
| `VaryText.VaryIff` | internal/cache/cache.go:536-551 | from the text of the header: Vary is usable iff no item between commas on any line is a star, and then names exactly the canonical forms of the non-empty items |
| `VaryText.VaryRoundTrip` | internal/cache/cache.go:536-551 | a list of names over any number of lines, in any grouping, joined by commas with white space around the names, is read back as it is, in order |
| `CachingWriter.Writer.constructor` | internal/cache/writer.go:31-38 | a new writer has status 200 and has captured nothing |
| `CachingWriter.Writer.WriteHeader` | internal/cache/writer.go:41-83 | informational codes pass through without effect; the first final code fixes status and verdict; later ones are ignored |
| `CachingWriter.Writer.Decide` | internal/cache/writer.go:58-79 | the response is captured iff it is cacheable and its Vary usable, with the TTL, names and tags of the headers at that moment |
| `CachingWriter.Writer.Write` | internal/cache/writer.go:87-103 | the bytes accepted are relayed and captured until they exceed the limit; a first write implies status 200 |
| `CachingWriter.Writer.MarkComplete` | internal/cache/writer.go:115-117 | only the completeness flag changes |
| `CachingWriter.Writer.Finish` | internal/cache/writer.go:145-218 | the offers made and outcomes counted are those of `FinishOf` |
| `CachingWriter.RunTracks` | internal/cache/writer.go:41-117 | after every call sequence the writer's fields are what the calls say: first final status, headers at it, bytes relayed, limit kept |
| `CachingWriter.StoredIff` | internal/cache/writer.go:145-218 | for every call sequence a response is offered iff its first final status was cacheable with usable Vary, it was marked complete, it fits, and its final headers carry no Set-Cookie in header or trailer form; its body is exactly the bytes relayed |
| `CachingWriter.CountedOnce` | internal/cache/writer.go:145-171 | every response is counted at most once: as a miss iff judged storable, as uncacheable iff it had a final status and was not; and as a skip iff only its length kept it out |
| `CachingWriter.RelayIsTransparent` | internal/cache/writer.go:41-103 | the client gets the bytes written, every informational status, and of the others exactly the first, whatever is cached |
| `StoredResponse.FixedBy` | internal/cache/writer.go:41-78 | the status and headers judged are those of the first Write or final WriteHeader, and the headers in the end are as last set, with the MISS if that came later |
| `StoredResponse.TagsAreWords` | internal/cache/cache.go:554-570 | the tags are the words of the first Surrogate-Key line, or of the first Cache-Tag line if that is empty or missing |
| `StoredResponse.AuthorizedIff` | internal/cache/cache.go:497 | a request counts as authorized iff its first Authorization value is not empty |
| `StoredResponse.StoredExactly` | internal/cache/writer.go:145-217 | for every sequence of calls, on the text of the fields: exactly when a response is stored, and then its keys, its time to live, status, body, headers, Vary names and tags, and the pointer before it |
| `CacheRun.StoredWasOffered` | internal/cache/cache.go:185-271 | whatever is in the store was offered by some exchange of the run under that key |
| `CacheRun.OfferShape` | internal/cache/writer.go:188-217 | every offer is a bodyless pointer under the base key or the full response under its own key |
| `CacheRun.PointerNotUnderVaryKey` | internal/cache/writer.go:188-201 | no base key equals a key over headers, so a pointer is never taken for a response |
| `CacheRun.ServedIsFit` | internal/proxy/proxy.go:849-867 | in every run of interleaved exchanges, lookups and losses, what is served is the whole response of an exchange with the same method, path and query that agrees on every header of its Vary list (section 4.1 of RFC 9111), if queries and Vary'd values hold no pipe |
| `CacheRun.PlainIsFit` | internal/proxy/proxy.go:849-857 | an entry without Vary list is a fit answer whatever characters queries and headers hold |
| `CacheRun.PutsEffect` | internal/cache/writer.go:188-217 | the writes of an exchange leave its response, its pointer if it varies, and all other keys as they were |
| `CacheRun.StoredIsServed` | internal/cache/writer.go:188-217 | round trip: right after an exchange's writes, every request that it fits is served its response, whatever was stored before |
| `CacheCollision.CollisionIsServed` | internal/proxy/proxy.go:849-867 | for every two requests with equal keys over their Vary lists and different content, some run serves one the response of the other, and no exchange of that run is a fit source for it |
| `CacheCollision.QueryPipeMatters` | internal/cache/cache.go:320-354 | with pipes in queries allowed, some run serves an unfit response, for every request with a query and every Vary list |
| `CacheCollision.ValuePipeMatters` | internal/cache/cache.go:337-354 | with pipes in values allowed, some run serves an unfit response, for every target and every Vary list of two or more |
| `CacheCollision.UnfitIff` | internal/proxy/proxy.go:849-867 | for every request and non-empty Vary list, some run that looks the request up by that list serves it an unfit response iff its key over the list is ambiguous |
| `TagIndex.LapseIff` | internal/cache/cache.go:245-267 | for a write with pauses between its commands, the key ends in a set that outlives the response iff the set met by the SADD did not lapse before the script |
| `TagIndex.Store.constructor` | internal/cache/cache.go:107-118 | an empty store is indexed |
| `TagIndex.Store.Advance` | internal/cache/cache.go:226-271 | time passing keeps every live response in sets that outlive it |
| `TagIndex.Store.AddTag` | internal/cache/cache.go:246-262 | SADD and the grow-only script in place are `Grow` of `SAdd` |
| `TagIndex.Store.Write` | internal/cache/cache.go:226-271 | a write stores the entry, adds its key to each tag's live members, raises each expiry to the later of the two, touches no other tag, and keeps every live response indexed |
| `TagIndex.Store.Delete` | internal/cache/cache.go:274-285 | removes that entry alone and reports whether it was live |
| `TagIndex.Store.DeleteByTag` | internal/cache/cache.go:289-311 | afterwards no live response carries the tag; exactly the members are removed; the count is the live ones among them; the rest stays indexed |
| `TagPurge.InvHolds` | internal/cache/cache.go:226-311 | in every calm run each live response is indexed in a set that outlives it or a write under way will see to it |
| `TagPurge.IndexIsComplete` | internal/cache/cache.go:226-271 | once no write is under way every live response is in each of its tag sets, each of which outlives it |
| `TagPurge.PurgeIsComplete` | internal/cache/cache.go:289-311 | once a purge has deleted the keys it read, every live response with the tag is one whose key was added to the set since, or whose write has yet to add it |
| `TagPurge.WaitIff` | internal/cache/cache.go:245-267 | a wait keeps every live response covered iff it lets no set lapse that a write has added to, not yet extended, and will not add to again |
| `TagPurge.DropSetIff` | internal/cache/cache.go:300-302 | deleting a set keeps every live response covered iff each one added since the purge read the set is about to be added again |
| `TagPurge.CalmIff` | internal/cache/cache.go:226-311 | every live response is indexed or in hand throughout a run iff every step of the run is calm |
| `TagPurge.LapseOrphans` | internal/cache/cache.go:245-267 | for any tag and TTLs, a set that lapses between SADD and script takes the new key with it |
| `TagPurge.PurgeOrphans` | internal/cache/cache.go:289-302 | for any tag and TTL, a write indexed between a purge's SMEMBERS and its DEL of the set is lost from the index |
| `TagRace.RaceIff` | internal/cache/cache.go:226-311 | in every order of the commands of one write and one purge, with any waits and from any state, the response ends live and unindexed iff it has not expired, its key was not read or its SET came after the DEL of the keys, and its SADD came before the DEL of the set or the set lapsed before the script |
| `CircuitBreaker.Breaker.CheckOpen` | internal/auth/auth.go:80-88 | answers `IsOpen` of the fields at the given time and changes nothing |
| `CircuitBreaker.Breaker.RecordFailure` | internal/auth/auth.go:90-98 | counts, and at the threshold opens until now + resetTimeout |
| `CircuitBreaker.Breaker.RecordSuccess` | internal/auth/auth.go:100-105 | clears the count and closes |
| `CircuitBreaker.StateIsHistory` | internal/auth/auth.go:80-105 | open iff the failures since the last success reach the threshold, and refusing iff also the timeout since the last failure has not passed |
| `CircuitBreaker.HalfOpenAdmitsMany` | internal/auth/auth.go:76-88 | once the timeout has passed, any number of overlapping callers go ahead before an outcome is recorded |
| `CircuitBreaker.AuthClient.CheckOnce` | internal/auth/auth.go:371-399 | a refused or canceled check changes nothing; otherwise its outcome is recorded |
| `CircuitBreaker.SessionIsHistory` | internal/auth/auth.go:371-399 | a session leaves the breaker as its recorded outcomes alone would |
| `CircuitBreaker.ContactedIff` | internal/auth/auth.go:371-375 | a Check contacts the service unless the recorded failures since the last success reach the threshold and the last is less than a reset timeout old |
| `CircuitBreaker.FailuresAreSpaced` | internal/auth/auth.go:371-399 | in any sequential run without success, failed contacts past the threshold are a reset timeout apart |
| `CircuitBreaker.FailureBudget` | internal/auth/auth.go:371-399 | so contacts that fail number at most threshold + span / resetTimeout; canceled ones are not recorded and not bounded |
| `CircuitBreaker.TenantBreaker.CheckOpen` | internal/ratelimit/external.go:273-282 | answers as the history says and marks the access |
| `CircuitBreaker.TenantBreaker.RecordFailure` | internal/ratelimit/external.go:284-294 | the same transition as the auth breaker, and marks the access |
| `CircuitBreaker.TenantBreaker.RecordSuccess` | internal/ratelimit/external.go:296-302 | the same transition as the auth breaker, and marks the access |
| `CircuitBreaker.TenantBreaker.IsStale` | internal/ratelimit/external.go:304-308 | stale iff the last access is more than maxIdle ago |
| `CircuitBreaker.StubIsNotInert` | internal/ratelimit/external.go:257-263 | the shared stub opens after exactly 2^31 − 1 failures in a row |
| `BreakerMap.InvHolds` | internal/ratelimit/external.go:579-633 | counter, map, pending counts and floored decrements balance in every interleaving |
| `BreakerMap.CapHolds` | internal/ratelimit/external.go:579-633 | with n goroutines and an evictor the counter is never negative and neither it nor the map exceeds cap + n − 1 |
| `BreakerMap.CounterDrift` | internal/ratelimit/external.go:612-633 | at rest the counter is the map's size plus the floored decrements: exact iff none was floored |
| `BreakerMap.DriftIsBounded` | internal/ratelimit/external.go:612-633 | in every run at most as many decrements are floored as there are goroutines, so at rest the counter is ahead of the map by no more than that |
| `BreakerMap.DriftFillsTheCapIff` | internal/ratelimit/external.go:579-633 | for every cap and n, some run ends at rest with an empty map and the counter at the cap iff n is at least the cap |
| `BreakerMap.CapIsTight` | internal/ratelimit/external.go:579-595 | for every cap and n some interleaving reaches cap + n − 1 |
| `BreakerMap.JudgedIsUnused` | internal/ratelimit/external.go:612-617 | only a breaker that went idle and was not handed out or made anew since is found stale |
| `LookupKey.ComputeKey` | internal/ratelimit/external.go:201-223 | walking the header map in any order, sorting and appending gives the one key of the request |
| `LookupKey.KeptNames` | internal/ratelimit/external.go:207-214 | the first loop collects exactly the headers that are not excluded |
| `LookupKey.KeptIff` | internal/ratelimit/external.go:207-214 | a header takes part iff no excluded name spells it in any case |
| `LookupKey.ExcludedDoNotCount` | internal/ratelimit/external.go:195-223 | requests that differ only in excluded headers share a key |
| `LookupKey.KeyIdentifies` | internal/ratelimit/external.go:201-223 | among requests without delimiters in what takes part, keys are equal iff method, path and all headers that take part are |
| `LookupKey.KeyCollides` | internal/ratelimit/external.go:201-223 | other content has the same lookup key iff some header takes part or the path holds the pair of one that would |
| `LookupKey.DelimitersCollide` | internal/ratelimit/external.go:201-223 | an instance: a value that holds a pair gives the key of a request with two headers |
| `LookupKey.KeySpacesApart` | internal/ratelimit/external.go:226-231 | a fresh Redis key is never a stale one, because a method has no colon |
| `ExternalLimits.FreshRead` | internal/ratelimit/external.go:674-694 | a fresh hit was fetched for that key and is within its TTL |
| `ExternalLimits.StaleRead` | internal/ratelimit/external.go:639-656 | a stale hit was fetched for that key and was written less than five minutes before |
| `ExternalLimits.OpenIsTripped` | internal/ratelimit/external.go:273-302 | a circuit found open has recorded, since its last success, failures up to its threshold, the last within the reset timeout, all of real fetches and for its key; one found closed has not |
| `ExternalLimits.InvHolds` | internal/ratelimit/external.go:484-547 | all calls, flights, copies, breakers, semaphore places and the singleflight group are accounted for in every interleaving |
| `ExternalLimits.Provenance` | internal/ratelimit/external.go:484-547 | in every run, limits returned were fetched for the same lookup key: by a flight under way at some moment of the call, or from a fresh copy within its TTL, or from a stale copy within five minutes and only after a tripped breaker or a full semaphore refused the call or the fetch of its flight failed |
| `ExternalLimits.OneFlightPerKey` | internal/ratelimit/external.go:514-536 | never two flights at once for one lookup key |
| `ExternalLimits.FetchesAreBounded` | internal/ratelimit/external.go:504-536 | the flights under way over all keys never outnumber the places of the semaphore |
| `LimitsAnswers.AnswerIsReturned` | internal/ratelimit/external.go:484-547 | in every run, a call that waited for a flight to which the service answered returns that answer |
| `LimitsAnswers.FreshCopyIsReturned` | internal/ratelimit/external.go:487-491 | a read, by a call or a flight, that is carried out while Redis holds a live fresh copy for the key returns that copy |
| `LimitsAnswers.StaleCopyIsReturned` | internal/ratelimit/external.go:180-190 | what a read of the stale copy finds is what the call, or every call waiting for the flight, returns |
| `LimitsAnswers.NothingOnlyIf` | internal/ratelimit/external.go:484-547 | a call returns no limits only if it was refused for a reason that held, or its flight failed, and a logged read of the stale copy was not carried out or found nothing live |
| `LimitsAnswers.AnswersAreKept` | internal/ratelimit/external.go:525-536 | a finished flight with an answer has reported success for its key, and handed the answer to Redis as fresh copy with its TTL and as stale copy; one whose fetch failed has reported that |
| `LimitsAnswers.BreakersDecide` | internal/ratelimit/external.go:493-511 | calls pass or are refused by the breaker of their key, or the shared one at the cap, exactly as its record has it; refused by the semaphore only if it is full; let in only after passing |
| `LimitsAnswers.CallStepsLower` | internal/ratelimit/external.go:484-547 | every step of a call brings it nearer to its end |
| `LimitsAnswers.FlightStepsLower` | internal/ratelimit/external.go:514-536 | and every step of a flight |
| `LimitsAnswers.NoCallIsStuck` | internal/ratelimit/external.go:484-547 | in every reachable state, a call that is not done can take a step, or the flight that it waits for can |
| `EventRing.Emitter.constructor` | internal/events/emitter.go:110-124 | an empty ring of the configured size |
| `EventRing.Emitter.Emit` | internal/events/emitter.go:134-152 | appends at the tail, dropping the oldest when full |
| `EventRing.Emitter.Copy` | internal/events/emitter.go:212-215 | the copy loop takes the oldest n events across the wrap |
| `EventRing.Emitter.Drain` | internal/events/emitter.go:199-219 | takes the oldest events in order, at most a batch |
| `EventRing.Emitter.Flush` | internal/events/emitter.go:189-197 | ends with the ring empty, having sent all of it in order in full batches but the last |
| `EventRing.RunKeepsLedger` | internal/events/emitter.go:134-219 | in every run the buffer is the latest events in order, and every event emitted is exactly one of drained, dropped and buffered, each in order |
| `EmitterWakeup.NoLostWakeup` | internal/events/emitter.go:134-219 | whenever the ring holds a batch, the slot is full, or an Emit is about to signal, or a flush has not yet seen the ring empty |
| `EmitterWakeup.BatchMovesOn` | internal/events/emitter.go:134-219 | in every reachable state of a running emitter that holds a batch some internal step is enabled |
| `EmitterWakeup.InternalStepsEnd` | internal/events/emitter.go:172-219 | every internal step lowers a rank, so these steps run out |
| `EmitterWakeup.RingFallsBelowBatch` | internal/events/emitter.go:134-219 | from any reachable state of a running emitter, enabled internal steps number at most the rank, and when none is left the ring holds less than a batch |
| `EmitterWakeup.LenIsRing` | internal/events/emitter.go:134-219 | in every run the length that the protocol goes by is that of the ring of `EventRing` under the same emits and drains |
| `EmitterWakeup.CloseLeavesNothing` | internal/events/emitter.go:163-170 | when Close is about to return, every event emitted so far was handed to send or dropped by a full ring, and none of them twice |
| `ProxyDrain.ClosingIsFinal` | internal/proxy/proxy.go:741-749 | once closing is set it stays, and the tracked requests only become fewer |
| `ProxyDrain.AddNeverRacesWait` | internal/proxy/proxy.go:737-786 | no in-flight Add can run while or after some Close waits |
| `ProxyDrain.ReleasedOnceAndDrained` | internal/proxy/proxy.go:781-822 | transports are released at most once, exactly once by any return of Close, and with a request still tracked only if a deadline passed |
| `ProxyDrain.AdmittedWhileOpen` | internal/proxy/proxy.go:737-749 | a request that reads closing before any Close sets it is admitted |
| `ProxyDrain.RefusedOnlyWhenClosing` | internal/proxy/proxy.go:741-745 | requests are refused only after closing is set |
| `ProxyDrain.RequestsGoOn` | internal/proxy/proxy.go:737-760 | in every reachable state a request can take a step that brings it nearer to its end |
| `ProxyDrain.CloseGoesOn` | internal/proxy/proxy.go:781-822 | a waiting Close can go on iff no request is tracked, and from there to its return |
| `RedisOwnership.InvHolds` | internal/middleware/chain.go:689-747 | every client created is in exactly one place, in every interleaving |
| `RedisOwnership.ClosedAtMostOnce` | internal/middleware/chain.go:1701-1724 | each client is closed at most once, and never while installed as the limiter's |
| `RedisOwnership.SidesStayApart` | internal/middleware/chain.go:1889-2068 | the cache path closes only dedicated clients, the main path none of them, and at most one recovery loop runs |
| `RedisOwnership.BorrowedIsCurrent` | internal/middleware/chain.go:2008-2056 | a cache client borrowed from the limiter is the one that the limiter has, once no recovery loop is about to re-point it |
| `RedisOwnership.NoLeakWithOneResolver` | internal/middleware/chain.go:689-747 | without overlapping resolves none overwrites a client that another stored |
| `RedisOwnership.OverlappingResolvesLeak` | internal/middleware/chain.go:689-733 | a condition on callers: of two resolves at once, the second store overwrites a client that nobody closes |
| `RedisOwnership.InstallAfterShutdown` | internal/middleware/chain.go:1929-1955 | a recovery loop whose ping succeeded before Close installs its client after the swap |
| `RedisOwnership.StoreAfterShutdown` | internal/middleware/chain.go:689-747 | a single resolve that connected before Close's release stores its client after it, and nobody closes it |
| `RedisOwnership.ShutdownIff` | internal/middleware/chain.go:2330-2355 | when all is over after Close, every client is closed iff a loop past its ping at the swap found its client unneeded or lost it to a limiter error, and a client stored after the release was released again; in particular if no loop was past its ping at the swap and no resolve in progress at the release or later |

## Left out

- HTTP, gRPC, QUIC and TLS transports, WebSocket relay, certificate and CA reload: I/O over libraries.
- Configuration loading and validation, file watching, URL and network policy, header deny lists: single-branch checks.
- Metrics, tracing, logging and health reporting, including the cache store's healthy flag; only the miss, uncacheable and skip counts of the writer are kept.
- Ristretto admission and eviction in the in-memory limiter, and its pending map for concurrent first calls: each key has one bucket, which stays.
- Encoding of entries and limits: JSON and gob round trips are taken as exact.
- What a hit does with the stored headers and the Age header: served entries are stated by status, headers, body, Vary list and tags.
- The WebSocket per-key counter, the admin rate limiter and the SHA-256 auth cache keys: easier than what is here.
- TTL resolution of the external service from response headers and body: the TTL of an answer is any integer.
- Floating point: rates and tokens are reals, so rounding is not captured. Timestamps, TTLs and counters are integers; the duration overflow of `max-age` is.
- The dedicated Redis client of the response cache (`responseCacheRedis`) and its recovery: `RedisOwnership` is about the limiter's client and `cacheRedis`.
- Redis: each command and script is atomic, a key with an expiry may be lost from that instant on, and server and caller share a clock. Redis itself keeps a key through its last millisecond, so the model lets it go one tick early. In `TagIndex` and `TagPurge` every command succeeds, and TTLs are whole positive milliseconds. In `CacheRun` and `ExternalLimits` commands may fail and keys may go at any time.
- Concurrency: the state machines are on values, with the interleaved steps as actions; shared memory itself and Go's memory model are not modelled. Cancellation of a leader's context inside singleflight is a failed fetch.
- CacheKey.PipesCountNames: requires no pipe in query and values, since it is about counting them.
- CacheKey.KeyInjective: requires queries and Vary'd values without `|`, because the code escapes nothing; `KeyCollision.KeyCollides` is exact for arbitrary ones.
- CacheRun.PointerNotUnderVaryKey: requires no pipe in queries and values; `KeyCollision.KeyCollides` covers the others.
- CacheRun.ServedIsFit: requires queries, and values of the headers that the entries vary on, without `|`, for the same reason; `CacheCollision.UnfitIff` is exact for arbitrary ones.
- KeyCollision.KeyCollides: Vary'd names contain no `|` and no `=`, as in `CacheKey.KeyInjective`, `CacheRun.ServedIsFit` and `CacheCollision.UnfitIff`. ParseVary accepts such names; what they do to keys is not modelled.
- CacheCollision.UnfitIff: the same, and the two reads of the lookup see one store; `CacheRun.ServedIsFit` lets the store change in between.
- LookupKey.KeyIdentifies: requires requests without delimiters, for the same reason; `LookupKey.KeyCollides` is exact for arbitrary values and rooted paths.
- LookupKey.KeyCollides: header names contain no `|`, which HTTP's token grammar would allow, and decoded paths start with a slash.
- ExternalLimits.Provenance: the lookup, cap test and store of a breaker are one step here, and so are the evictor's staleness test, Delete and decrement; `BreakerMap` takes them apart. Thresholds are at least 1, as resolveCBThreshold sees to. Methods contain no `:`, as HTTP's token grammar has it (section 5.6.2 of RFC 9110).
- RedisOwnership.ShutdownIff: Close is called once, and resolves do not overlap. A ping succeeds at one instant, before or after the cancellation of the context.
- CircuitBreaker.FailureBudget: about contacts that fail; a canceled one is recorded neither as failure nor as success, and is not counted.
- BreakerMap.DriftFillsTheCapIff: how long two reset timeouts last is not modelled; a breaker goes idle at any time that it is not used.
- CachingWriter.StoredIff: header values set by the handler at any moment are arbitrary; the lower-casing of non-ASCII letters in directive names is not modelled.
