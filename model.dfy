/**
 * The domain values shared by every component: the five request parameters
 * (`model.FizzBuzzRequest`), the top-entry report (`model.StatsResult`), the
 * errors the core distinguishes, and the counting step both frequency stores
 * perform.
 */
module Model {
  import opened Maybe
  import Text

  /** `model.FizzBuzzRequest`: identity of a request for caching and counting. */
  datatype Request = Request(int1: int, int2: int, limit: int, str1: string, str2: string)
  {
    /**
     * `fmt.Sprintf("%d,%d,%d,%s,%s", int1, int2, limit, str1, str2)`: the
     * canonical key used both as the cache key and as the sorted-set member.
     * The words are copied verbatim, without escaping.
     */
    function Key(): (k: string)
      ensures WordsCommaFree() ==>
                Text.Split(k) == [Text.IntToString(int1), Text.IntToString(int2), Text.IntToString(limit), str1, str2]
    {
      var parts := [Text.IntToString(int1), Text.IntToString(int2), Text.IntToString(limit), str1, str2];
      Text.NoCommaInIntToString(int1);
      Text.NoCommaInIntToString(int2);
      Text.NoCommaInIntToString(limit);
      if WordsCommaFree() then
        Text.SplitJoin(parts);
        Text.Join(parts)
      else
        Text.Join(parts)
    }

    /** Neither word holds the separator, the condition under which the key can be read back. */
    predicate WordsCommaFree() {
      ',' !in str1 && ',' !in str2
    }
  }

  /** `model.StatsResult`: the most frequent request and its hit count. */
  datatype StatsResult = StatsResult(int1: int, int2: int, limit: int, str1: string, str2: string, hits: int)
  {
    function Params(): Request {
      Request(int1, int2, limit, str1, str2)
    }
  }

  function Report(r: Request, hits: int): (s: StatsResult)
    ensures s.Params() == r && s.hits == hits
  {
    StatsResult(r.int1, r.int2, r.limit, r.str1, r.str2, hits)
  }

  /** The five fields of a stored member, in order: the three integers, named as in the parse errors, then the two words. */
  datatype Field = Int1Field | Int2Field | LimitField | Str1Field | Str2Field

  datatype Error =
    /** Non-positive divisor or limit given to the engine. */
    | InvalidParameters
    /** Any failure reported by a networked store (cache or sorted set). */
    | Backend(message: string)
    /** `strconv.Atoi` rejected one integer field of a stored member. */
    | ParseFailure(field: Field)
    /** A stored member has too few comma-separated fields. */
    | MissingField(field: Field)
    /** `model.ErrNoRequestsFound`. */
    | NoRequestsFound
    /** `fmt.Errorf("<context>: %w", cause)`. */
    | Wrapped(context: string, cause: Error)

  datatype Result<+T> = Ok(value: T) | Err(error: Error)

  /** The count a Go map reports for a key: its zero value when absent. */
  function Count<K>(m: map<K, int>, k: K): int {
    if k in m then m[k] else 0
  }

  /** `m[k]++` on a Go map (and `ZINCRBY set 1 k`): the count of `k` goes up by one, created at one. */
  function Bumped<K>(m: map<K, int>, k: K): (r: map<K, int>)
    ensures r.Keys == m.Keys + {k}
    ensures r[k] == Count(m, k) + 1
    ensures forall j :: j in m && j != k ==> r[j] == m[j]
  {
    m[k := Count(m, k) + 1]
  }
}
