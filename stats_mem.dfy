/**
 * `InMemoryStatsRepository`: a map from request to hit count, bumped in
 * place, scanned for its maximum and replaced by an empty map on reset.
 */
module StatsMem {
  import opened Maybe
  import opened Model

  /** `s` reports a request of `stats` whose positive count no other request exceeds. */
  ghost predicate IsMostFrequent(stats: map<Request, int>, s: StatsResult) {
    && s.Params() in stats
    && stats[s.Params()] == s.hits
    && s.hits > 0
    && forall r :: r in stats ==> stats[r] <= s.hits
  }

  /** No request has a positive count (this includes the empty map). */
  ghost predicate NothingCounted(stats: map<Request, int>) {
    forall r :: r in stats ==> stats[r] <= 0
  }

  class InMemoryStatsRepository {
    var stats: map<Request, int>

    /** `NewInMemoryStatsRepository(start)`. */
    constructor (start: map<Request, int>)
      ensures stats == start
    {
      stats := start;
    }

    /**
     * `GetMostFrequentRequest`: a scan of every entry in an unspecified
     * order that keeps the first count strictly above the best so far.
     * Absent when no count is positive; never an error.
     */
    method GetMostFrequentRequest() returns (top: Option<StatsResult>, err: Option<Error>)
      ensures err.None?
      ensures top.None? <==> NothingCounted(stats)
      ensures top.Some? ==> IsMostFrequent(stats, top.value)
    {
      var maxHits := 0;
      var key := Request(0, 0, 0, "", "");
      var unseen := stats.Keys;
      while unseen != {}
        invariant unseen <= stats.Keys
        invariant maxHits >= 0
        invariant maxHits > 0 ==> key in stats && stats[key] == maxHits
        invariant forall r :: r in stats && r !in unseen ==> stats[r] <= maxHits
        decreases unseen
      {
        var request :| request in unseen;
        var hits := stats[request];
        if hits > maxHits {
          key := request;
          maxHits := hits;
        }
        unseen := unseen - {request};
      }
      if maxHits > 0 {
        return Some(Report(key, maxHits)), None;
      }
      return None, None;
    }

    /** `IncrementRequestCount`: `stats[request]++`; never an error. */
    method IncrementRequestCount(int1: int, int2: int, limit: int, str1: string, str2: string)
      returns (err: Option<Error>)
      modifies this
      ensures err.None?
      ensures stats == Bumped(old(stats), Request(int1, int2, limit, str1, str2))
    {
      var request := Request(int1, int2, limit, str1, str2);
      stats := stats[request := Count(stats, request) + 1];
      return None;
    }

    /** `ResetStats`: the map is replaced by an empty one; never an error. */
    method ResetStats() returns (err: Option<Error>)
      modifies this
      ensures err.None? && stats == map[]
    {
      stats := map[];
      return None;
    }

    /** A reset followed by the top query: the query reports nothing and neither call fails. */
    method ResetThenGetMostFrequentRequest() returns (resetErr: Option<Error>, top: Option<StatsResult>, err: Option<Error>)
      modifies this
      ensures resetErr.None? && top.None? && err.None?
      ensures stats == map[]
    {
      resetErr := ResetStats();
      top, err := GetMostFrequentRequest();
    }
  }

  /** Requests that differ in any one of the five fields are counted apart. */
  lemma IncrementTouchesOnlyItsRequest(stats: map<Request, int>, a: Request, b: Request)
    requires a != b
    ensures Count(Bumped(stats, a), b) == Count(stats, b)
    ensures Count(Bumped(stats, a), a) == Count(stats, a) + 1
  {
  }

  /**
   * Counting `n` times from an empty map gives exactly `n` to that request
   * and makes it the unique most frequent one.
   */
  lemma {:induction false} RepeatedIncrements(r: Request, n: nat)
    ensures var m := BumpedTimes(map[], r, n);
            m.Keys == (if n == 0 then {} else {r}) && (n > 0 ==> m[r] == n)
    ensures n > 0 ==> IsMostFrequent(BumpedTimes(map[], r, n), Report(r, n))
  {
    if n > 0 {
      RepeatedIncrements(r, n - 1);
    }
  }

  /** `n` consecutive increments of the same request. */
  function BumpedTimes(m: map<Request, int>, r: Request, n: nat): map<Request, int> {
    if n == 0 then m else Bumped(BumpedTimes(m, r, n - 1), r)
  }
}
