/**
 * `RedisStatsRepository`: hit counts kept in one sorted set of the store,
 * keyed by the canonical text of the request and scored by its count. The
 * set is modelled as a map from member to integer score; every call to the
 * store may fail with a backend error.
 */
module StatsRedis {
  import opened Maybe
  import opened Model
  import Text
  import Remote

  /** `member` has the highest score of the set (ties between members are the store's choice). */
  predicate IsTopMember(zset: map<string, int>, member: string) {
    member in zset && forall m :: m in zset ==> zset[m] <= zset[member]
  }

  /**
   * The replies the top query may give on `zset`: an error and an entry never
   * come together; nothing with no error exactly when the set is empty; an
   * entry is the reading of a highest-scored member; an error that is not the
   * store's own is the parse error of a highest-scored member.
   */
  ghost predicate TopReply(zset: map<string, int>, top: Option<StatsResult>, err: Option<Error>) {
    && (err.Some? ==> top.None?)
    && (zset == map[] ==> top.None?)
    && (top.None? && err.None? ==> zset == map[])
    && (top.Some? ==> exists m :: IsTopMember(zset, m) && ParseMember(m, zset[m]) == Ok(top.value))
    && (err.Some? && !err.value.Backend? ==>
          exists m :: IsTopMember(zset, m) && ParseMember(m, zset[m]) == Err(err.value))
  }

  /** What reading back one member can give, including Go's index-out-of-range panic. */
  datatype ParseOutcome = Parsed(stats: StatsResult) | Failed(error: Error) | IndexPanic(index: nat)

  /**
   * The member-reading block of `GetMostFrequentRequest` as written: split
   * on commas, `Atoi` the first three parts (each failure naming its field),
   * take parts 3 and 4 as the words and ignore any further part. The parts
   * are indexed without a length check, so a member with fewer than five
   * parts panics at the first missing index.
   */
  function ParseMemberAsWritten(member: string, score: int): (r: ParseOutcome)
    ensures var parts := Text.Split(member);
            Text.Atoi(parts[0]).None? ==> r == Failed(ParseFailure(Int1Field))
    ensures var parts := Text.Split(member);
            |parts| >= 2 && Text.Atoi(parts[0]).Some? && Text.Atoi(parts[1]).None? ==>
              r == Failed(ParseFailure(Int2Field))
    ensures var parts := Text.Split(member);
            |parts| >= 3 && Text.Atoi(parts[0]).Some? && Text.Atoi(parts[1]).Some? && Text.Atoi(parts[2]).None? ==>
              r == Failed(ParseFailure(LimitField))
    ensures var parts := Text.Split(member);
            r.IndexPanic? <==> |parts| < 5 && forall k :: 0 <= k < |parts| && k < 3 ==> Text.Atoi(parts[k]).Some?
    ensures r.IndexPanic? ==> r.index == |Text.Split(member)|
    ensures var parts := Text.Split(member);
            r.Parsed? <==> |parts| >= 5 && Text.Atoi(parts[0]).Some? && Text.Atoi(parts[1]).Some? && Text.Atoi(parts[2]).Some?
    ensures var parts := Text.Split(member);
            r.Parsed? ==> r.stats == StatsResult(Text.Atoi(parts[0]).value, Text.Atoi(parts[1]).value,
                                                 Text.Atoi(parts[2]).value, parts[3], parts[4], score)
  {
    var parts := Text.Split(member);
    match Text.Atoi(parts[0])
    case None => Failed(ParseFailure(Int1Field))
    case Some(int1) =>
      if |parts| < 2 then IndexPanic(1) else
      match Text.Atoi(parts[1])
      case None => Failed(ParseFailure(Int2Field))
      case Some(int2) =>
        if |parts| < 3 then IndexPanic(2) else
        match Text.Atoi(parts[2])
        case None => Failed(ParseFailure(LimitField))
        case Some(limit) =>
          if |parts| < 4 then IndexPanic(3)
          else if |parts| < 5 then IndexPanic(4)
          else Parsed(StatsResult(int1, int2, limit, parts[3], parts[4], score))
  }

  function FieldAt(index: nat): Field {
    if index <= 1 then Int2Field else if index == 2 then LimitField else if index == 3 then Str1Field else Str2Field
  }

  /**
   * Reading back one member, with the panic of the source replaced by a
   * corrupt-entry error naming the first missing field. A member parses
   * exactly when it has at least five parts and its first three are
   * integers; extra parts are ignored, as in the source.
   */
  function ParseMember(member: string, score: int): (r: Result<StatsResult>)
    ensures var parts := Text.Split(member);
            r.Ok? <==> |parts| >= 5 && Text.Atoi(parts[0]).Some? && Text.Atoi(parts[1]).Some? && Text.Atoi(parts[2]).Some?
    ensures var parts := Text.Split(member);
            r.Ok? ==> r.value == StatsResult(Text.Atoi(parts[0]).value, Text.Atoi(parts[1]).value,
                                             Text.Atoi(parts[2]).value, parts[3], parts[4], score)
    ensures r.Err? ==> r.error.ParseFailure? || r.error.MissingField?
    ensures var parts := Text.Split(member);
            Text.Atoi(parts[0]).None? ==> r == Err(ParseFailure(Int1Field))
    ensures var parts := Text.Split(member);
            |parts| >= 2 && Text.Atoi(parts[0]).Some? && Text.Atoi(parts[1]).None? ==>
              r == Err(ParseFailure(Int2Field))
    ensures var parts := Text.Split(member);
            |parts| >= 3 && Text.Atoi(parts[0]).Some? && Text.Atoi(parts[1]).Some? && Text.Atoi(parts[2]).None? ==>
              r == Err(ParseFailure(LimitField))
    ensures var parts := Text.Split(member);
            |parts| < 5 && (forall k :: 0 <= k < |parts| && k < 3 ==> Text.Atoi(parts[k]).Some?) ==>
              r == Err(MissingField(FieldAt(|parts|)))
  {
    match ParseMemberAsWritten(member, score)
    case Parsed(s) => Ok(s)
    case Failed(e) => Err(e)
    case IndexPanic(i) => Err(MissingField(FieldAt(i)))
  }

  class RedisStatsRepository {
    /** The members of the sorted set with their scores. */
    var zset: map<string, int>

    /** `NewRedisStatsRepository`: the set holds whatever the store already has. */
    constructor (initial: map<string, int>)
      ensures zset == initial
    {
      zset := initial;
    }

    /**
     * `GetMostFrequentRequest`: ask the store for the highest-scored member
     * and read its five fields back. A backend error and an empty set give
     * no entry; a member that does not parse gives its parse error.
     */
    method GetMostFrequentRequest() returns (top: Option<StatsResult>, err: Option<Error>)
      ensures TopReply(zset, top, err)
    {
      var e := Remote.Call();
      if e.Some? {
        return None, e;
      }
      if zset == map[] {
        return None, None;
      }
      TopMemberExists(zset);
      var member :| IsTopMember(zset, member);
      match ParseMember(member, zset[member])
      case Ok(s) =>
        return Some(s), None;
      case Err(parseError) =>
        return None, Some(parseError);
    }

    /** `IncrementRequestCount`: `ZINCRBY` of 1 on the canonical key of the request. */
    method IncrementRequestCount(int1: int, int2: int, limit: int, str1: string, str2: string)
      returns (err: Option<Error>)
      modifies this
      ensures err.None? ==> zset == Bumped(old(zset), Request(int1, int2, limit, str1, str2).Key())
      ensures err.Some? ==> err.value.Backend? && zset == old(zset)
    {
      var key := Request(int1, int2, limit, str1, str2).Key();
      err := Remote.Call();
      if err.None? {
        zset := zset[key := Count(zset, key) + 1];
      }
    }

    /** `ResetStats`: `DEL` of the whole set. */
    method ResetStats() returns (err: Option<Error>)
      modifies this
      ensures err.None? ==> zset == map[]
      ensures err.Some? ==> err.value.Backend? && zset == old(zset)
    {
      err := Remote.Call();
      if err.None? {
        zset := map[];
      }
    }
  }

  /** A non-empty set has a highest-scored member. */
  lemma TopMemberExists(zset: map<string, int>)
    requires zset != map[]
    ensures exists m :: IsTopMember(zset, m)
    decreases |zset|
  {
    var k :| k in zset;
    var rest := zset - {k};
    if rest == map[] {
      forall m | m in zset
        ensures zset[m] <= zset[k]
      {
        assert m !in rest;
      }
      assert IsTopMember(zset, k);
    } else {
      assert |rest| < |zset|;
      TopMemberExists(rest);
      var best :| IsTopMember(rest, best);
      var top := if zset[k] <= zset[best] then best else k;
      forall m | m in zset
        ensures zset[m] <= zset[top]
      {
        if m != k {
          assert m in rest;
        }
      }
      assert IsTopMember(zset, top);
    }
  }

  /** Reading back the key of a request with comma-free words gives the request and the score. */
  lemma MemberRoundTrip(r: Request, score: int)
    requires r.WordsCommaFree()
    ensures ParseMember(r.Key(), score) == Ok(Report(r, score))
  {
    Text.AtoiIntToString(r.int1);
    Text.AtoiIntToString(r.int2);
    Text.AtoiIntToString(r.limit);
  }

  /** Distinct requests with comma-free words are counted under distinct members. */
  lemma KeyInjective(a: Request, b: Request)
    requires a.WordsCommaFree() && b.WordsCommaFree() && a.Key() == b.Key()
    ensures a == b
  {
    MemberRoundTrip(a, 0);
    MemberRoundTrip(b, 0);
  }

  /**
   * A comma inside a word breaks both directions: two different requests
   * share one member, and reading it back gives a third request whose words
   * are parts 3 and 4 of the split.
   */
  lemma CommaInWordCollides()
    ensures Request(1, 2, 3, "a,b", "c").Key() == Request(1, 2, 3, "a", "b,c").Key()
    ensures ParseMember(Request(1, 2, 3, "a,b", "c").Key(), 7) == Ok(StatsResult(1, 2, 3, "a", "b", 7))
  {
    CollidingKeysSplitInSix();
    DecimalOf(1, "1");
    DecimalOf(2, "2");
    DecimalOf(3, "3");
  }

  /** Both colliding keys are the join of six comma-free parts. */
  lemma CollidingKeysSplitInSix()
    ensures Request(1, 2, 3, "a,b", "c").Key() == Text.Join(["1", "2", "3", "a", "b", "c"])
    ensures Request(1, 2, 3, "a", "b,c").Key() == Text.Join(["1", "2", "3", "a", "b", "c"])
    ensures Text.Split(Text.Join(["1", "2", "3", "a", "b", "c"])) == ["1", "2", "3", "a", "b", "c"]
  {
    DecimalOf(1, "1");
    DecimalOf(2, "2");
    DecimalOf(3, "3");
    assert Text.Join(["a,b", "c"]) == Text.Join(["a", "b", "c"]);
    assert Text.Join(["a", "b,c"]) == Text.Join(["a", "b", "c"]);
    Text.SplitJoin(["1", "2", "3", "a", "b", "c"]);
  }

  /**
   * The member written for the source's own example, `3,5,15,Fizz,Buzz`
   * with score 10, is the key of that request and reads back with 10 hits.
   */
  lemma ExampleMember()
    ensures Request(3, 5, 15, "Fizz", "Buzz").Key() == Text.Join(["3", "5", "15", "Fizz", "Buzz"])
    ensures ParseMember(Text.Join(["3", "5", "15", "Fizz", "Buzz"]), 10) == Ok(StatsResult(3, 5, 15, "Fizz", "Buzz", 10))
  {
    DecimalOf(3, "3");
    DecimalOf(5, "5");
    DecimalOf(15, "15");
    MemberRoundTrip(Request(3, 5, 15, "Fizz", "Buzz"), 10);
  }

  /**
   * A member with only three parts, `3,5,15`, makes the source panic when it
   * reaches `parts[3]`; the corrected reading reports the missing first word.
   */
  lemma ShortMemberPanics()
    ensures ParseMemberAsWritten(Text.Join(["3", "5", "15"]), 10) == IndexPanic(3)
    ensures ParseMember(Text.Join(["3", "5", "15"]), 10) == Err(MissingField(Str1Field))
  {
    Text.SplitJoin(["3", "5", "15"]);
    DecimalOf(3, "3");
    DecimalOf(5, "5");
    DecimalOf(15, "15");
  }

  /**
   * A non-integer in an integer slot, as in `3,x,15,Fizz,Buzz`, is a parse
   * error naming that field, not a backend error.
   */
  lemma NonIntegerFieldIsParseError()
    ensures ParseMember(Text.Join(["3", "x", "15", "Fizz", "Buzz"]), 10) == Err(ParseFailure(Int2Field))
  {
    Text.SplitJoin(["3", "x", "15", "Fizz", "Buzz"]);
    DecimalOf(3, "3");
    assert Text.Atoi("x").None?;
  }

  /** The decimal text of a small literal, read both ways. */
  lemma DecimalOf(n: int, s: string)
    requires n >= 0 && s == Text.NatToString(n)
    ensures Text.IntToString(n) == s && Text.Atoi(s) == Some(n)
  {
    Text.AtoiIntToString(n);
  }
}
