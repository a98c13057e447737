# fizzbuzz-api, modelled in Dafny

A model of the core of `fizzbuzz-api`, a Go HTTP service. It computes a
generalized FizzBuzz string, caches the answers, and counts how often each
request is made, so that it can report the most frequent one.

- `FizzBuzz.Calculate` is the engine. It rejects non-positive divisors and
  limits, then writes one token per position `1..limit`, each followed by a
  comma, and cuts off the last comma. The spec function `FizzBuzz.Expected`
  says what it must return (the comma join of `FizzBuzz.Tokens`). The loop
  is proved to produce it.
- The frequency store has two variants.
  - `StatsMem.InMemoryStatsRepository` keeps a map from request to count.
    It bumps the map in place and scans it for a maximum.
  - `StatsRedis.RedisStatsRepository` keeps a sorted set, modelled as a map
    from member text to integer score. The member text is the canonical key
    `int1,int2,limit,str1,str2`. Reading the top member splits this key on
    commas and parses the first three parts back into integers.
  - `Repository.StatsRepository` is the interface the services see. Each
    variant holds its store object, and every operation dispatches to it.
    `Repository.StoreState` is what either store holds, so the services can
    state their effect without knowing which store they were given.
- The cache is either `Cache.NoOp`, the default, which stores nothing and
  always misses, or `Cache.Backed`, a key-value cache.
- `FizzBuzzService.Service` answers a request from the cache or the engine,
  stores a computed answer in the cache, and then counts the request.
- `StatsService.StatsService` reports the top request, turning "nothing
  counted" into `NoRequestsFound`, and resets the counts.
- `Text` models the pieces of the Go standard library the core relies on:
  `fmt.Sprintf("%d")`, `strconv.Atoi`, `strings.Split(s, ",")` and the
  comma join.

Calls to a networked store go through `Remote.Call`. It may succeed or
return a backend error, and the caller cannot predict which. So every
property of the Redis store and of a backed cache holds whichever way each
call goes.

Two behaviours of the code shape the model.

- Reading back a stored member
  (`internal/adapters/outbound/repository/stats_redis.go:42-57`) reports a
  parse error for a non-integer field. But it indexes `parts[1]` to
  `parts[4]` without checking the length, so a member with too few fields
  panics. "Findings" records this as a defect.
  `StatsRedis.ParseMemberAsWritten` models the code as written. The rest of
  the model uses the corrected `StatsRedis.ParseMember`, which reports the
  first missing field as a `MissingField` error instead.
- A cache read failure
  (`internal/application/services/fizzbuzz/fizzbuzz.go:53-59`) is ignored
  when the value returned beside the error is empty, and the engine answers.
  A non-empty value together with an error fails the request. The Redis
  cache always returns `""` with its error
  (`internal/adapters/outbound/repository/cache_redis.go:28`). So only
  another implementation of the cache interface can reach the second case.
  The service is proved against the interface, which allows both.

## Model

| member | source | states |
|---|---|---|
| Text.AtoiIntToString | internal/adapters/outbound/repository/stats_redis.go:44-55 | Parsing back the `%d` text of any integer gives that integer, so the integer fields of a key survive the round trip |
| Text.SplitJoin | internal/adapters/outbound/repository/stats_redis.go:42 | Splitting a comma join of comma-free pieces on commas gives exactly those pieces back |
| Text.IntToString | internal/adapters/outbound/repository/stats_redis.go:75 | `%d` of an integer: decimal digits only for a non-negative one, a minus sign followed by digits for a negative one |
| Text.Atoi | internal/adapters/outbound/repository/stats_redis.go:44-55 | Parses exactly the digit strings with an optional sign; a negative result comes from a leading minus; a text with a comma never parses |
| Text.Split | internal/adapters/outbound/repository/stats_redis.go:42 | At least one piece, no piece holds a comma, and joining the pieces with commas gives the text back |
| Text.JoinSnoc | internal/domain/fizzbuzz/fizzbuzz.go:26-37 | Appending one piece to a join adds exactly one separator and that piece at the end |
| Model.Bumped | internal/adapters/outbound/repository/stats_mem.go:56 | `m[k]++`: the key is present afterwards with its old count (zero if absent) plus one, and every other key keeps its count |
| Model.Report | internal/adapters/outbound/repository/stats_mem.go:34-41 | The reported entry carries the request's five fields and the given hit count |
| Model.Request.Key | internal/adapters/outbound/repository/stats_redis.go:75 | With comma-free words, the key splits on commas into the decimal texts of the three integers followed by the two words |
| FizzBuzz.Calculate | internal/domain/fizzbuzz/fizzbuzz.go:16-39 | The builder loop returns exactly `Expected`: `InvalidParameters` on bad input, otherwise the comma join of the tokens for positions 1..limit with no trailing comma |
| FizzBuzz.Threshold | internal/domain/fizzbuzz/fizzbuzz.go:20-23 | The combined threshold is never below either divisor |
| FizzBuzz.Token | internal/domain/fizzbuzz/fizzbuzz.go:27-35 | The decimal text where neither divisor divides the position; the first word wherever the first divisor divides it and the combined threshold does not, even when the second divisor divides it too; the second word where only the second divisor does; both words together at a multiple of the combined threshold, and with equal divisors at every multiple of the divisor |
| FizzBuzz.Tokens | internal/domain/fizzbuzz/fizzbuzz.go:26-35 | Exactly `n` tokens, and the one at index `k` is the token of position `k+1` |
| FizzBuzz.Expected | internal/domain/fizzbuzz/fizzbuzz.go:16-39 | The engine fails exactly when a divisor or the limit is not positive, and the failure is then `InvalidParameters` |
| FizzBuzz.TerminatedJoin | internal/domain/fizzbuzz/fizzbuzz.go:36-38 | What the builder holds after the loop is the comma join plus one trailing comma, so cutting the last byte gives the join |
| FizzBuzz.OutputSplitsIntoTokens | internal/domain/fizzbuzz/fizzbuzz.go:26-38 | With comma-free words, the output splits on commas into exactly `limit` pieces, piece `k` being the token of position `k+1` |
| FizzBuzz.CombinedOnlyWhereBothDivide | internal/domain/fizzbuzz/fizzbuzz.go:20-28 | The combined word is written only at positions that both divisors divide |
| FizzBuzz.EqualDivisorsCombineAtDivisor | internal/domain/fizzbuzz/fizzbuzz.go:21-23 | With equal divisors the combined word appears at the divisor itself |
| FizzBuzz.ProductThresholdIsNotLcm | internal/domain/fizzbuzz/fizzbuzz.go:20-28 | Divisors 2 and 4 give position 4 only the first word: the threshold is the product 8, not the least common multiple 4 |
| FizzBuzz.EqualDivisorsVector | internal/domain/fizzbuzz/fizzbuzz_test.go:44-49 | (3, 3, 5, Fizz, Buzz) gives `1,2,FizzBuzz,4,5` |
| FizzBuzz.EmptyWordsVector | internal/domain/fizzbuzz/fizzbuzz_test.go:50-55 | Empty words give `1,2,,4,` |
| FizzBuzz.UnicodeWordsVector | internal/domain/fizzbuzz/fizzbuzz_test.go:63-68 | Multi-byte words are copied unchanged up to position 15 |
| FizzBuzz.LimitOneVector | internal/domain/fizzbuzz/fizzbuzz_test.go:69-74 | (1, 2, 1, a, b) gives `a`, with no separator |
| FizzBuzz.DivisorOneVector | internal/domain/fizzbuzz/fizzbuzz_test.go:75-80 | (1, 2, 10, a, b) alternates `a` and `ab` |
| FizzBuzz.ClassicVector | internal/domain/fizzbuzz/fizzbuzz_test.go:81-86 | (3, 5, 21, Fizz, Buzz) gives the classic sequence up to 21 |
| StatsMem.InMemoryStatsRepository.constructor | internal/adapters/outbound/repository/stats_mem.go:16-20 | The store starts with the given map |
| StatsMem.InMemoryStatsRepository.GetMostFrequentRequest | internal/adapters/outbound/repository/stats_mem.go:23-45 | Never an error; nothing exactly when no count is positive; otherwise an entry whose request is in the map with that positive count, no count being larger (any maximal request may be chosen) |
| StatsMem.InMemoryStatsRepository.IncrementRequestCount | internal/adapters/outbound/repository/stats_mem.go:48-58 | Never an error; the map becomes `Bumped` of the old map at the five-field request |
| StatsMem.InMemoryStatsRepository.ResetStats | internal/adapters/outbound/repository/stats_mem.go:61-64 | Never an error; the map is empty afterwards |
| StatsMem.IncrementTouchesOnlyItsRequest | internal/adapters/outbound/repository/stats_mem.go:49-56 | An increment raises its own request by one and leaves any request differing in a field unchanged |
| StatsMem.InMemoryStatsRepository.ResetThenGetMostFrequentRequest | internal/adapters/outbound/repository/stats_mem.go:23-64 | A reset followed by the top query: neither call fails, the query reports nothing and the map stays empty |
| StatsMem.RepeatedIncrements | internal/adapters/outbound/repository/stats_mem.go:56 | `n` increments of one request from an empty map leave exactly that request with count `n`, the unique most frequent one |
| StatsRedis.ParseMember | internal/adapters/outbound/repository/stats_redis.go:42-57 | A member parses exactly when it has at least five parts and its first three are integers; the result holds those integers, parts 3 and 4 and the score; otherwise the error names the first of int1, int2 and limit that is not an integer, or, when the parts run out first, the first missing field |
| StatsRedis.ParseMemberAsWritten | internal/adapters/outbound/repository/stats_redis.go:42-57 | The code as written: parses exactly when there are at least five parts and the first three are integers, giving those integers, parts 3 and 4 and the score; the parse error of the first non-integer among int1, int2 and limit; an index panic exactly when the parts run out before five with every present integer slot parsing, at the index equal to the number of parts |
| StatsRedis.RedisStatsRepository.constructor | internal/adapters/outbound/repository/stats_redis.go:24-28 | The set starts as the store holds it |
| StatsRedis.RedisStatsRepository.GetMostFrequentRequest | internal/adapters/outbound/repository/stats_redis.go:31-70 | Error and entry never together; nothing with no error exactly on an empty set; an entry is the reading of a highest-scored member; a non-backend error is the parse error of a highest-scored member |
| StatsRedis.RedisStatsRepository.IncrementRequestCount | internal/adapters/outbound/repository/stats_redis.go:73-78 | On success the score of the canonical key goes up by one (created at one); on failure a backend error and the set is unchanged |
| StatsRedis.RedisStatsRepository.ResetStats | internal/adapters/outbound/repository/stats_redis.go:81-85 | On success the set is empty; on failure a backend error and the set is unchanged |
| StatsRedis.TopMemberExists | internal/adapters/outbound/repository/stats_redis.go:33-41 | A non-empty set has a highest-scored member, so the top query always has one to read |
| StatsRedis.MemberRoundTrip | internal/adapters/outbound/repository/stats_redis.go:42-57 | Reading back the key of a request with comma-free words gives that request and the score |
| StatsRedis.KeyInjective | internal/adapters/outbound/repository/stats_redis.go:75 | Requests with comma-free words that share a key are the same request |
| StatsRedis.CommaInWordCollides | internal/adapters/outbound/repository/stats_redis.go:56-57 | With a comma in a word, two different requests share one key, and it reads back as a third request |
| StatsRedis.ExampleMember | internal/adapters/outbound/repository/stats_redis_test.go:44-64 | The key of request (3, 5, 15, Fizz, Buzz) is the member `3,5,15,Fizz,Buzz`, which with score 10 reads back as that request with 10 hits |
| StatsRedis.ShortMemberPanics | internal/adapters/outbound/repository/stats_redis.go:56-57 | Member `3,5,15` panics at index 3 as written; the corrected reading reports the missing first word |
| StatsRedis.NonIntegerFieldIsParseError | internal/adapters/outbound/repository/stats_redis.go:48-51 | A non-integer in the int2 slot is a parse error naming int2, not a backend error |
| Repository.StatsRepository.GetMostFrequentRequest | internal/application/adapters/interfaces.go:6-7 | The reply is one the chosen store admits in its current state |
| Repository.StatsRepository.IncrementRequestCount | internal/application/adapters/interfaces.go:8-9 | On success the state is the old one incremented at the request; on failure a backend error and nothing changes; the in-memory store never fails |
| Repository.StatsRepository.ResetStats | internal/application/adapters/interfaces.go:10-11 | On success the state is the cleared one; on failure a backend error and nothing changes; the in-memory store never fails |
| Repository.UpdatesKeepNonNegative | internal/adapters/outbound/repository/stats_mem.go:56-63 | Increments and resets keep every count non-negative |
| Repository.NothingAfterReset | internal/adapters/outbound/repository/stats_mem.go:61-64 | After a successful reset either store reports nothing, and the in-memory one no error |
| Repository.SomethingAfterIncrement | internal/adapters/outbound/repository/stats_mem.go:48-58 | After a successful increment on non-negative counts, a top query without error reports an entry |
| Cache.KeyValueCache.Get | internal/adapters/outbound/repository/cache_redis.go:21-31 | On success the stored value, or `""` for a missing key; on failure `""` and a backend error |
| Cache.KeyValueCache.Set | internal/adapters/outbound/repository/cache_redis.go:33-42 | On success the key maps to the value; on failure a backend error and nothing changes |
| Cache.CacheFizzbuzz.Get | internal/adapters/outbound/repository/cache_noop.go:11-13 | The reply is one the cache admits; the no-op cache answers `""` and no error for every key |
| Cache.CacheFizzbuzz.Set | internal/adapters/outbound/repository/cache_noop.go:14-16 | The no-op cache accepts every write and keeps nothing; a backed cache stores the value or fails with a backend error and changes nothing |
| Cache.CacheFizzbuzz.SetThenGet | internal/adapters/outbound/repository/cache_noop.go:11-16 | After a `Set` the no-op cache still misses; a backed cache whose calls succeed returns the value written |
| FizzBuzzService.Service.constructor | internal/application/services/fizzbuzz/fizzbuzz.go:26-37 | The service uses the given store and the no-op cache |
| FizzBuzzService.Service.WithCache | internal/application/services/fizzbuzz/fizzbuzz.go:19-24 | The service uses the given store and the given cache |
| FizzBuzzService.Service.CalculateFizzBuzzOrGetFromCache | internal/application/services/fizzbuzz/fizzbuzz.go:52-70 | The reply is one the cache admits. A non-empty cached value decides alone (the value, or a failure if an error came with it) and nothing is written; an empty one, with or without an error, leads to the engine, whose error fails before any write; the output is then written under the same key and returned, or the write fails with a backend error, the cache is unchanged and the request fails |
| FizzBuzzService.Service.GenerateFizzBuzz | internal/application/services/fizzbuzz/fizzbuzz.go:39-70 | The answer of the cache-or-engine step, with the same cache effect: its failure is wrapped and nothing is counted; its success is counted exactly once and returned, unless the count fails, which only the Redis store can do, with a backend error; the count changes exactly when the call succeeds; with the no-op cache and the in-memory store it succeeds exactly on valid input and returns the engine's output |
| StatsService.StatsService.constructor | internal/application/services/stats/stats.go:12-17 | The service uses the given store |
| StatsService.StatsService.GetStats | internal/application/services/stats/stats.go:20-30 | Only reads the store; an entry is one the store admits, `NoRequestsFound` means the store reported nothing and no error, any other error is the store's own |
| StatsService.StatsService.ResetStats | internal/application/services/stats/stats.go:33-35 | The store's reset and its error, passed on unchanged |
| StatsService.StatsService.ResetThenGetStats | internal/application/services/stats/stats.go:20-35 | After a successful reset the stats query fails; on the in-memory store it always fails with `NoRequestsFound` |
| Scenarios.RepeatedRequests | internal/application/services/fizzbuzz/fizzbuzz.go:39-50 | With the stats factory's fallback store (in memory) and the service's default cache (no-op), `n` identical requests each return the engine's output, and the stats then report exactly that request with `n` hits (or `NoRequestsFound` when nothing valid was counted) |
| Scenarios.Serve | internal/application/services/fizzbuzz/fizzbuzz.go:39-50 | With the no-op cache and the in-memory store, `n` identical requests each return the engine's output, and the request's count goes up by `n` on valid input and not at all otherwise |
| Scenarios.OnlyRepeatedRequestReported | internal/application/services/stats/stats.go:20-30 | After `n > 0` increments of one request from nothing, the only stats the service can report are that request with `n` hits |

## Left out

- StatsMem.InMemoryStatsRepository.GetMostFrequentRequest: admits any request of maximal count, because the source keeps the first maximum in Go's unspecified map order.
- StatsRedis.RedisStatsRepository.GetMostFrequentRequest: a top member with fewer than five fields gives a `MissingField` error where the source panics; this is the corrected reading recorded under "Findings".
- StatsRedis.RedisStatsRepository.IncrementRequestCount: a failed call is taken to change nothing, although the store may have applied a write whose reply was lost.
- StatsRedis.ParseMember: the score is an integer here; the source truncates a `float64` score.
- FizzBuzz.Calculate: `int1 * int2` is computed on unbounded integers; the source's Go `int` can overflow.
- Concurrency: the in-memory map is updated without a lock. The model is sequential.
- A `nil` start map passed to `NewInMemoryStatsRepository` makes the first increment panic. The model has no nil maps.
- `strconv.Atoi` range errors for out-of-range numbers are not modelled; every digit string parses.
- Error texts are not modelled. Errors keep their kind, their field and the contexts they are wrapped with.
- Which member Redis returns among equal top scores is left open.
- Contexts, the network client, the key name of the sorted set, and cache expiry are not part of this model.
- HTTP handlers, request validation, routing, configuration and process wiring are not part of this model.
- The declaration of `model.StatsResult` is not part of this model. It is modelled with the six fields the stores fill in.
- `internal/application/adapters/interfaces.go:7` declares the top query as a flat tuple, unlike both stores, which return an optional entry. The model follows the stores.

## Findings

| source | as written | input that shows it | evidently intended | confidence | as-written member | corrected member |
|---|---|---|---|---|---|---|
| internal/adapters/outbound/repository/stats_redis.go:56-57 | `parts[3]` and `parts[4]` (and `parts[1]`, `parts[2]`) are indexed without checking how many parts the split gave | a top member `3,5,15` panics at `parts[3]` | a member with too few fields is reported as a corrupt-entry error | not executed | StatsRedis.ParseMemberAsWritten | StatsRedis.ParseMember |
