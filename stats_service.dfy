/**
 * The statistics application service: report the most frequent request,
 * turning "nothing counted yet" into `ErrNoRequestsFound`, and reset the
 * counts.
 */
module StatsService {
  import opened Maybe
  import opened Model
  import Repository

  class StatsService {
    const repository: Repository.StatsRepository

    /** `NewStats(repo)`. */
    constructor (repo: Repository.StatsRepository)
      ensures repository == repo
    {
      repository := repo;
    }

    /**
     * `GetStats`: a store error is passed on unchanged, no entry becomes
     * `NoRequestsFound`, and an entry is returned as the store gave it. The
     * store is only read.
     */
    method GetStats() returns (r: Result<StatsResult>)
      ensures r.Ok? ==> repository.State().Admits(Some(r.value), None)
      ensures r == Err(NoRequestsFound) ==> repository.State().Admits(None, None)
      ensures r.Err? && r.error != NoRequestsFound ==> repository.State().Admits(None, Some(r.error))
    {
      var top, err := repository.GetMostFrequentRequest();
      if err.Some? {
        return Err(err.value);
      }
      if top.None? {
        return Err(NoRequestsFound);
      }
      return Ok(top.value);
    }

    /** `ResetStats`: the store's reset and its error. */
    method ResetStats() returns (err: Option<Error>)
      modifies repository.Repr()
      ensures err.None? ==> repository.State() == old(repository.State()).Cleared()
      ensures err.Some? ==> err.value.Backend? && repository.State() == old(repository.State())
      ensures repository.InMemory? ==> err.None?
    {
      err := repository.ResetStats();
    }

    /**
     * A reset followed by a stats query: when the reset succeeds the query
     * fails, and on the in-memory store it always fails with
     * `NoRequestsFound`.
     */
    method ResetThenGetStats() returns (resetErr: Option<Error>, r: Result<StatsResult>)
      modifies repository.Repr()
      ensures resetErr.None? ==> r.Err?
      ensures repository.InMemory? ==> resetErr.None? && r == Err(NoRequestsFound)
    {
      ghost var before := repository.State();
      resetErr := ResetStats();
      r := GetStats();
      if resetErr.None? && r.Ok? {
        Repository.NothingAfterReset(before, Some(r.value), None);
      }
    }
  }
}
