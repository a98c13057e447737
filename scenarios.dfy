/**
 * The two services wired with the stats factory's fallback store and the
 * service's default cache: the in-memory store shared by both services and
 * the no-op cache.
 */
module Scenarios {
  import opened Maybe
  import opened Model
  import FizzBuzz
  import StatsMem
  import Repository
  import Cache
  import FizzBuzzService
  import StatsService

  /**
   * `n` identical FizzBuzz requests against a fresh store, then a stats
   * query. Every answer is the engine's output; on valid parameters the
   * stats report exactly this request with `n` hits, otherwise nothing was
   * counted and the query fails with `NoRequestsFound`.
   */
  method RepeatedRequests(int1: int, int2: int, limit: int, str1: string, str2: string, n: nat)
    returns (answers: seq<Result<string>>, stats: Result<StatsResult>)
    ensures |answers| == n
    ensures FizzBuzz.ValidParams(int1, int2, limit) ==>
              forall k :: 0 <= k < n ==> answers[k] == FizzBuzz.Expected(int1, int2, limit, str1, str2)
    ensures !FizzBuzz.ValidParams(int1, int2, limit) ==> forall k :: 0 <= k < n ==> answers[k].Err?
    ensures FizzBuzz.ValidParams(int1, int2, limit) && n > 0 ==>
              stats == Ok(Report(Request(int1, int2, limit, str1, str2), n))
    ensures !FizzBuzz.ValidParams(int1, int2, limit) || n == 0 ==> stats == Err(NoRequestsFound)
  {
    var request := Request(int1, int2, limit, str1, str2);
    var mem := new StatsMem.InMemoryStatsRepository(map[]);
    var repository := Repository.InMemory(mem);
    var service := new FizzBuzzService.Service(repository);
    answers := Serve(service, mem, int1, int2, limit, str1, str2, n);
    var statsService := new StatsService.StatsService(repository);
    stats := statsService.GetStats();
    if FizzBuzz.ValidParams(int1, int2, limit) && n > 0 {
      OnlyRepeatedRequestReported(request, n, stats);
    }
  }

  /**
   * The same request served `n` times by a service with the no-op cache and
   * the in-memory store `mem`: each answer is the engine's output, and on
   * valid parameters the request is counted `n` more times.
   */
  method Serve(service: FizzBuzzService.Service, mem: StatsMem.InMemoryStatsRepository,
               int1: int, int2: int, limit: int, str1: string, str2: string, n: nat)
    returns (answers: seq<Result<string>>)
    requires service.stat == Repository.InMemory(mem) && service.cache == Cache.NoOp
    modifies mem
    ensures |answers| == n
    ensures FizzBuzz.ValidParams(int1, int2, limit) ==>
              forall k :: 0 <= k < n ==> answers[k] == FizzBuzz.Expected(int1, int2, limit, str1, str2)
    ensures !FizzBuzz.ValidParams(int1, int2, limit) ==> forall k :: 0 <= k < n ==> answers[k].Err?
    ensures mem.stats == if FizzBuzz.ValidParams(int1, int2, limit)
                         then StatsMem.BumpedTimes(old(mem.stats), Request(int1, int2, limit, str1, str2), n)
                         else old(mem.stats)
  {
    var request := Request(int1, int2, limit, str1, str2);
    var valid := FizzBuzz.ValidParams(int1, int2, limit);
    answers := [];
    var i := 0;
    while i < n
      invariant 0 <= i <= n && |answers| == i
      invariant mem.stats == if valid then StatsMem.BumpedTimes(old(mem.stats), request, i) else old(mem.stats)
      invariant valid ==> forall k :: 0 <= k < i ==> answers[k] == FizzBuzz.Expected(int1, int2, limit, str1, str2)
      invariant !valid ==> forall k :: 0 <= k < i ==> answers[k].Err?
    {
      var answer;
      ghost var got, setErr, inner;
      answer, got, setErr, inner := service.GenerateFizzBuzz(int1, int2, limit, str1, str2);
      answers := answers + [answer];
      i := i + 1;
    }
  }

  /**
   * After `n > 0` increments of one request from nothing, the only reply
   * the store admits, and so the only stats, is that request with `n` hits.
   */
  lemma OnlyRepeatedRequestReported(request: Request, n: nat, stats: Result<StatsResult>)
    requires n > 0
    requires var state := Repository.Counts(StatsMem.BumpedTimes(map[], request, n));
             && (stats.Ok? ==> state.Admits(Some(stats.value), None))
             && (stats == Err(NoRequestsFound) ==> state.Admits(None, None))
             && (stats.Err? && stats.error != NoRequestsFound ==> state.Admits(None, Some(stats.error)))
    ensures stats == Ok(Report(request, n))
  {
    StatsMem.RepeatedIncrements(request, n);
    var counted := StatsMem.BumpedTimes(map[], request, n);
    assert request in counted && counted[request] > 0;
  }
}
