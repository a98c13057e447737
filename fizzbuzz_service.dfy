/**
 * The FizzBuzz application service: answer a request from the cache or the
 * engine, store a freshly computed answer in the cache, then count the
 * request in the frequency store. Every failure is wrapped with the context
 * of the step that produced it.
 */
module FizzBuzzService {
  import opened Maybe
  import opened Model
  import FizzBuzz
  import Repository
  import Cache

  const GetOrCalculateContext := "error calculating or getting from cache"
  const IncrementContext := "error incrementing request count"
  const CacheGetContext := "error getting from cache"
  const CalculateContext := "error calculating fizzbuzz"
  const CacheSetContext := "error setting cache"

  class Service {
    const stat: Repository.StatsRepository
    const cache: Cache.CacheFizzbuzz

    /** `NewFizzBuzzService(sts)`: the no-op cache unless one is given. */
    constructor (sts: Repository.StatsRepository)
      ensures stat == sts && cache == Cache.NoOp
    {
      stat := sts;
      cache := Cache.NoOp;
    }

    /** `NewFizzBuzzService(sts, WithCache(c))`. */
    constructor WithCache(sts: Repository.StatsRepository, c: Cache.CacheFizzbuzz)
      ensures stat == sts && cache == c
    {
      stat := sts;
      cache := c;
    }

    /**
     * What `calculateFizzBuzzOrGetFromCache` may do, given the cache's answer
     * `got` to the lookup and the outcome `setErr` of the write (`None` when
     * no write failed or none was made), taking the cache from `before` to
     * `after` and answering `r`. A non-empty answer decides the outcome
     * alone: its value, or a failure when an error came with it. An empty
     * answer, with or without an error, falls through to the engine; an
     * engine error is returned before any write, and a computed output is
     * written under the request's key, a failed write failing the request.
     */
    ghost predicate Answered(int1: int, int2: int, limit: int, str1: string, str2: string,
                             before: map<string, string>, after: map<string, string>,
                             got: Cache.CacheReply, setErr: Option<Error>, r: Result<string>)
    {
      var key := Request(int1, int2, limit, str1, str2).Key();
      var expected := FizzBuzz.Expected(int1, int2, limit, str1, str2);
      && (got.value != "" ==>
            setErr.None? && after == before &&
            r == (if got.err.None? then Ok(got.value) else Err(Wrapped(CacheGetContext, got.err.value))))
      && (got.value == "" && expected.Err? ==>
            setErr.None? && after == before && r == Err(Wrapped(CalculateContext, expected.error)))
      && (got.value == "" && expected.Ok? && setErr.None? ==>
            r == expected && after == cache.Stored(before, key, expected.value))
      && (got.value == "" && expected.Ok? && setErr.Some? ==>
            cache.Backed? && setErr.value.Backend? && after == before &&
            r == Err(Wrapped(CacheSetContext, setErr.value)))
    }

    /**
     * `calculateFizzBuzzOrGetFromCache`. `got` is the cache's answer to the
     * lookup and `setErr` the error of the write, if one was made and failed.
     */
    method CalculateFizzBuzzOrGetFromCache(int1: int, int2: int, limit: int, str1: string, str2: string)
      returns (r: Result<string>, ghost got: Cache.CacheReply, ghost setErr: Option<Error>)
      modifies cache.Repr()
      ensures var key := Request(int1, int2, limit, str1, str2).Key();
              old(cache.Replies(key, got))
      ensures Answered(int1, int2, limit, str1, str2, old(cache.Contents()), cache.Contents(), got, setErr, r)
    {
      var key := Request(int1, int2, limit, str1, str2).Key();
      var value, err := cache.Get(key);
      got, setErr := Cache.CacheReply(value, err), None;
      if value != "" {
        if err.Some? {
          return Err(Wrapped(CacheGetContext, err.value)), got, setErr;
        }
        return Ok(value), got, setErr;
      }
      r := FizzBuzz.Calculate(int1, int2, limit, str1, str2);
      if r.Err? {
        return Err(Wrapped(CalculateContext, r.error)), got, setErr;
      }
      var e := cache.Set(key, r.value);
      setErr := e;
      if e.Some? {
        return Err(Wrapped(CacheSetContext, e.value)), got, setErr;
      }
    }

    /**
     * `GenerateFizzBuzz`: `inner` is the answer of
     * `calculateFizzBuzzOrGetFromCache`. Its failure is wrapped and nothing
     * is counted; its success is counted exactly once and returned, unless
     * the count fails, which only the Redis store can do. With the no-op
     * cache and the in-memory store the call succeeds exactly on
     * valid parameters and returns the engine's output.
     */
    method GenerateFizzBuzz(int1: int, int2: int, limit: int, str1: string, str2: string)
      returns (r: Result<string>, ghost got: Cache.CacheReply, ghost setErr: Option<Error>, ghost inner: Result<string>)
      modifies stat.Repr(), cache.Repr()
      ensures var key := Request(int1, int2, limit, str1, str2).Key();
              old(cache.Replies(key, got))
      ensures Answered(int1, int2, limit, str1, str2, old(cache.Contents()), cache.Contents(), got, setErr, inner)
      ensures inner.Err? ==> r == Err(Wrapped(GetOrCalculateContext, inner.error))
      ensures inner.Ok? ==>
                || r == inner
                || (stat.Redis? && r.Err? && r.error.Wrapped? && r.error.context == IncrementContext && r.error.cause.Backend?)
      ensures r.Ok? ==> stat.State() == old(stat.State()).Incremented(Request(int1, int2, limit, str1, str2))
      ensures r.Err? ==> stat.State() == old(stat.State())
      ensures cache.NoOp? && stat.InMemory? ==>
                (r.Ok? <==> FizzBuzz.ValidParams(int1, int2, limit)) &&
                (r.Ok? ==> r == FizzBuzz.Expected(int1, int2, limit, str1, str2))
    {
      r, got, setErr := CalculateFizzBuzzOrGetFromCache(int1, int2, limit, str1, str2);
      inner := r;
      if r.Err? {
        return Err(Wrapped(GetOrCalculateContext, r.error)), got, setErr, inner;
      }
      ghost var cached := cache.Contents();
      var err := stat.IncrementRequestCount(int1, int2, limit, str1, str2);
      assert cache.Contents() == cached;
      if err.Some? {
        return Err(Wrapped(IncrementContext, err.value)), got, setErr, inner;
      }
    }
  }
}
