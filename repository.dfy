/**
 * `adapters.StatsRepository`: the frequency store the services talk to,
 * either the in-memory map or the sorted set. Each variant holds its
 * store object and every operation dispatches to it. `StoreState` is what
 * the store holds, whichever variant keeps it, so that callers can state
 * the effect of an operation without knowing which one they were given.
 */
module Repository {
  import opened Maybe
  import opened Model
  import StatsMem
  import StatsRedis

  datatype StoreState =
    | Counts(stats: map<Request, int>)
    | Members(zset: map<string, int>)
  {
    /** The state after one successful increment of `r`. */
    function Incremented(r: Request): StoreState {
      match this
      case Counts(stats) => Counts(Bumped(stats, r))
      case Members(zset) => Members(Bumped(zset, r.Key()))
    }

    /** The state after a successful reset. */
    function Cleared(): StoreState {
      if Counts? then Counts(map[]) else Members(map[])
    }

    /** No count or score is negative, as holds of every store built from nothing. */
    predicate NonNegative() {
      match this
      case Counts(stats) => forall r :: r in stats ==> stats[r] >= 0
      case Members(zset) => forall m :: m in zset ==> zset[m] >= 0
    }

    /** The replies the top query may give in this state. */
    ghost predicate Admits(top: Option<StatsResult>, err: Option<Error>) {
      match this
      case Counts(stats) =>
        && err.None?
        && (top.None? <==> StatsMem.NothingCounted(stats))
        && (top.Some? ==> StatsMem.IsMostFrequent(stats, top.value))
      case Members(zset) => StatsRedis.TopReply(zset, top, err)
    }
  }

  datatype StatsRepository =
    | InMemory(mem: StatsMem.InMemoryStatsRepository)
    | Redis(redis: StatsRedis.RedisStatsRepository)
  {
    ghost function Repr(): set<object> {
      if InMemory? then {mem} else {redis}
    }

    ghost function State(): StoreState
      reads Repr()
    {
      if InMemory? then Counts(mem.stats) else Members(redis.zset)
    }

    method GetMostFrequentRequest() returns (top: Option<StatsResult>, err: Option<Error>)
      ensures State().Admits(top, err)
    {
      if InMemory? {
        top, err := mem.GetMostFrequentRequest();
      } else {
        top, err := redis.GetMostFrequentRequest();
      }
    }

    method IncrementRequestCount(int1: int, int2: int, limit: int, str1: string, str2: string)
      returns (err: Option<Error>)
      modifies Repr()
      ensures err.None? ==> State() == old(State()).Incremented(Request(int1, int2, limit, str1, str2))
      ensures err.Some? ==> err.value.Backend? && State() == old(State())
      ensures InMemory? ==> err.None?
    {
      if InMemory? {
        err := mem.IncrementRequestCount(int1, int2, limit, str1, str2);
      } else {
        err := redis.IncrementRequestCount(int1, int2, limit, str1, str2);
      }
    }

    method ResetStats() returns (err: Option<Error>)
      modifies Repr()
      ensures err.None? ==> State() == old(State()).Cleared()
      ensures err.Some? ==> err.value.Backend? && State() == old(State())
      ensures InMemory? ==> err.None?
    {
      if InMemory? {
        err := mem.ResetStats();
      } else {
        err := redis.ResetStats();
      }
    }
  }

  /** Increments and resets keep every count non-negative. */
  lemma UpdatesKeepNonNegative(s: StoreState, r: Request)
    requires s.NonNegative()
    ensures s.Incremented(r).NonNegative()
    ensures s.Cleared().NonNegative()
  {
  }

  /** After a successful reset the top query finds nothing, and the in-memory store reports no error either. */
  lemma NothingAfterReset(s: StoreState, top: Option<StatsResult>, err: Option<Error>)
    requires s.Cleared().Admits(top, err)
    ensures top.None?
    ensures s.Counts? ==> err.None?
  {
  }

  /**
   * After a successful increment, a top query that reports no error reports
   * an entry: the incremented request (or its member) now has a positive
   * count.
   */
  lemma SomethingAfterIncrement(s: StoreState, r: Request, top: Option<StatsResult>)
    requires s.NonNegative()
    requires s.Incremented(r).Admits(top, None)
    ensures top.Some?
  {
    match s
    case Counts(stats) =>
      var after := Bumped(stats, r);
      assert after[r] >= 1;
      assert !StatsMem.NothingCounted(after);
    case Members(zset) =>
      assert r.Key() in Bumped(zset, r.Key());
  }
}
