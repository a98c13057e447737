/**
 * The generalized FizzBuzz engine (`FizzBuzz.Calculate`): validate the three
 * integers, then emit one token per position 1..limit and join the tokens
 * with commas. `Expected` is the specification of the output; `Calculate`
 * is the builder loop of the source, proved to produce it.
 */
module FizzBuzz {
  import opened Model
  import Text

  predicate ValidParams(int1: int, int2: int, limit: int) {
    int1 > 0 && int2 > 0 && limit > 0
  }

  /**
   * The combined threshold: the divisor itself when both divisors are equal,
   * their product otherwise. For divisors sharing a factor this is larger
   * than their least common multiple.
   */
  function Threshold(int1: int, int2: int): (t: int)
    requires int1 > 0 && int2 > 0
    ensures t >= int1 && t >= int2
  {
    if int1 == int2 then int1 else MulGrows(int1, int2); int1 * int2
  }

  /**
   * The token written at position `i`: the decimal text of `i` where neither
   * divisor divides it, the word of the only divisor that does, and both
   * words together at a multiple of the combined threshold (with equal
   * divisors, at every multiple of the divisor).
   */
  function Token(int1: int, int2: int, str1: string, str2: string, i: int): (t: string)
    requires int1 > 0 && int2 > 0
    ensures i % int1 != 0 && i % int2 != 0 ==> t == Text.IntToString(i)
    ensures i % int1 == 0 && i % int2 != 0 ==> t == str1
    ensures i % int1 != 0 && i % int2 == 0 ==> t == str2
    ensures i % Threshold(int1, int2) == 0 ==> t == str1 + str2
    ensures i % Threshold(int1, int2) != 0 && i % int1 == 0 ==> t == str1
    ensures int1 == int2 && i % int1 == 0 ==> t == str1 + str2
  {
    if i % Threshold(int1, int2) == 0 then CombinedOnlyWhereBothDivide(int1, int2, i); str1 + str2
    else if i % int1 == 0 then str1
    else if i % int2 == 0 then str2
    else Text.IntToString(i)
  }

  /** The tokens for positions 1..n, in order. */
  function Tokens(int1: int, int2: int, str1: string, str2: string, n: nat): (ts: seq<string>)
    requires int1 > 0 && int2 > 0
    ensures |ts| == n
    ensures forall k :: 0 <= k < n ==> ts[k] == Token(int1, int2, str1, str2, k + 1)
  {
    if n == 0 then [] else Tokens(int1, int2, str1, str2, n - 1) + [Token(int1, int2, str1, str2, n)]
  }

  /**
   * What `Calculate` must return for these arguments: `InvalidParameters`
   * exactly when a divisor or the limit is not positive, otherwise the
   * tokens of positions 1..limit joined by commas.
   */
  function Expected(int1: int, int2: int, limit: int, str1: string, str2: string): (r: Result<string>)
    ensures r.Err? <==> int1 <= 0 || int2 <= 0 || limit <= 0
    ensures r.Err? ==> r.error == InvalidParameters
  {
    if !ValidParams(int1, int2, limit) then Err(InvalidParameters)
    else Ok(Text.Join(Tokens(int1, int2, str1, str2, limit)))
  }

  /** What the string builder holds after some tokens: each one followed by a comma. */
  function Terminated(ts: seq<string>): string {
    if |ts| == 0 then "" else Terminated(ts[..|ts| - 1]) + ts[|ts| - 1] + ","
  }

  /**
   * `FizzBuzz.Calculate`: non-positive parameters are rejected; otherwise
   * every token is written followed by a comma and the last comma is cut off.
   */
  method Calculate(int1: int, int2: int, limit: int, str1: string, str2: string) returns (r: Result<string>)
    ensures r == Expected(int1, int2, limit, str1, str2)
  {
    if int1 <= 0 || int2 <= 0 || limit <= 0 {
      return Err(InvalidParameters);
    }
    var product := int1 * int2;
    if int1 == int2 {
      product := int1;
    }
    var buf := "";
    var i := 1;
    while i <= limit
      invariant 1 <= i <= limit + 1
      invariant product == Threshold(int1, int2)
      invariant buf == Terminated(Tokens(int1, int2, str1, str2, i - 1))
    {
      if i % product == 0 {
        buf := buf + (str1 + str2);
      } else if i % int1 == 0 {
        buf := buf + str1;
      } else if i % int2 == 0 {
        buf := buf + str2;
      } else {
        buf := buf + Text.IntToString(i);
      }
      buf := buf + ",";
      i := i + 1;
    }
    TerminatedJoin(Tokens(int1, int2, str1, str2, limit));
    r := Ok(buf[..|buf| - 1]);
  }

  // ---------------------------------------------------------------------------
  // Properties of the output
  // ---------------------------------------------------------------------------

  lemma MulGrows(a: int, b: int)
    requires a > 0 && b > 0
    ensures a * b >= a && a * b >= b
  {
    assert a * b == a * (b - 1) + a;
    assert a * b == (a - 1) * b + b;
  }

  /** The builder content is the comma join plus one trailing comma. */
  lemma {:induction false} TerminatedJoin(ts: seq<string>)
    requires |ts| >= 1
    ensures Terminated(ts) == Text.Join(ts) + ","
  {
    var n := |ts|;
    if n > 1 {
      TerminatedJoin(ts[..n - 1]);
      Text.JoinSnoc(ts[..n - 1], ts[n - 1]);
      assert ts[..n - 1] + [ts[n - 1]] == ts;
    }
  }

  /**
   * With comma-free words, splitting the output on commas gives back exactly
   * `limit` pieces, the k-th being the token of position k + 1.
   */
  lemma OutputSplitsIntoTokens(int1: int, int2: int, limit: int, str1: string, str2: string)
    requires ValidParams(int1, int2, limit) && ',' !in str1 && ',' !in str2
    ensures Expected(int1, int2, limit, str1, str2).Ok?
    ensures |Text.Split(Expected(int1, int2, limit, str1, str2).value)| == limit
    ensures forall k :: 0 <= k < limit ==>
              Text.Split(Expected(int1, int2, limit, str1, str2).value)[k] == Token(int1, int2, str1, str2, k + 1)
  {
    var ts := Tokens(int1, int2, str1, str2, limit);
    forall k | 0 <= k < limit
      ensures ',' !in ts[k]
    {
      Text.NoCommaInIntToString(k + 1);
    }
    Text.SplitJoin(ts);
  }

  /** The combined word only appears at positions both divisors divide. */
  lemma CombinedOnlyWhereBothDivide(int1: int, int2: int, i: int)
    requires int1 > 0 && int2 > 0 && i % Threshold(int1, int2) == 0
    ensures i % int1 == 0 && i % int2 == 0
  {
    if int1 != int2 {
      var q := i / (int1 * int2);
      assert i == q * (int1 * int2);
      assert i == (q * int2) * int1;
      assert i == (q * int1) * int2;
      MultipleMod(q * int2, int1);
      MultipleMod(q * int1, int2);
    }
  }

  lemma MultipleMod(q: int, d: int)
    requires d > 0
    ensures (q * d) % d == 0
  {
    var k, r := (q * d) / d, (q * d) % d;
    assert r == (q - k) * d;
    MulAwayFromZero(q - k, d);
  }

  lemma MulAwayFromZero(x: int, d: int)
    requires d > 0
    ensures x >= 1 ==> x * d >= d
    ensures x <= -1 ==> x * d <= -d
  {
    if x >= 1 {
      assert x * d == (x - 1) * d + d;
    } else if x <= -1 {
      assert x * d == (x + 1) * d - d;
    }
  }

  /** Equal divisors combine at the divisor itself rather than at its square. */
  lemma EqualDivisorsCombineAtDivisor(d: int, str1: string, str2: string)
    requires d > 0
    ensures Token(d, d, str1, str2, d) == str1 + str2
  {
  }

  /**
   * The threshold is the product, not the least common multiple: with
   * divisors 2 and 4, position 4 is divisible by both yet gets only the
   * first word.
   */
  lemma ProductThresholdIsNotLcm()
    ensures 4 % 2 == 0 && 4 % 4 == 0
    ensures Token(2, 4, "a", "b", 4) == "a"
  {
  }

  // ---------------------------------------------------------------------------
  // Concrete vectors (the long outputs are stated as the join of their tokens)
  // ---------------------------------------------------------------------------

  /** Equal divisors 3 and 3 combine at 3. */
  lemma EqualDivisorsVector()
    ensures Expected(3, 3, 5, "Fizz", "Buzz") == Ok("1,2,FizzBuzz,4,5")
  {
    assert Token(3, 3, "Fizz", "Buzz", 1) == "1";
    assert Token(3, 3, "Fizz", "Buzz", 2) == "2";
    assert Token(3, 3, "Fizz", "Buzz", 3) == "FizzBuzz";
    assert Token(3, 3, "Fizz", "Buzz", 4) == "4";
    assert Token(3, 3, "Fizz", "Buzz", 5) == "5";
    assert Tokens(3, 3, "Fizz", "Buzz", 5) == ["1", "2", "FizzBuzz", "4", "5"];
    EqualDivisorsText();
  }

  /** Empty words leave empty tokens between the commas. */
  lemma EmptyWordsVector()
    ensures Expected(3, 5, 5, "", "") == Ok("1,2,,4,")
  {
    assert Token(3, 5, "", "", 1) == "1";
    assert Token(3, 5, "", "", 2) == "2";
    assert Token(3, 5, "", "", 3) == "";
    assert Token(3, 5, "", "", 4) == "4";
    assert Token(3, 5, "", "", 5) == "";
    assert Tokens(3, 5, "", "", 5) == ["1", "2", "", "4", ""];
    EmptyWordsText();
  }

  /** Multi-byte words are copied unchanged. */
  lemma UnicodeWordsVector()
    ensures Expected(3, 5, 15, "🎉", "🚀") == Ok(Text.Join(["1", "2", "🎉", "4", "🚀", "🎉", "7", "8", "🎉", "🚀", "11", "🎉", "13", "14", "🎉🚀"]))
  {
    assert Token(3, 5, "🎉", "🚀", 1) == "1";
    assert Token(3, 5, "🎉", "🚀", 2) == "2";
    assert Token(3, 5, "🎉", "🚀", 3) == "🎉";
    assert Token(3, 5, "🎉", "🚀", 4) == "4";
    assert Token(3, 5, "🎉", "🚀", 5) == "🚀";
    assert Token(3, 5, "🎉", "🚀", 6) == "🎉";
    assert Token(3, 5, "🎉", "🚀", 7) == "7";
    assert Token(3, 5, "🎉", "🚀", 8) == "8";
    assert Token(3, 5, "🎉", "🚀", 9) == "🎉";
    assert Token(3, 5, "🎉", "🚀", 10) == "🚀";
    assert Token(3, 5, "🎉", "🚀", 11) == "11";
    assert Token(3, 5, "🎉", "🚀", 12) == "🎉";
    assert Token(3, 5, "🎉", "🚀", 13) == "13";
    assert Token(3, 5, "🎉", "🚀", 14) == "14";
    assert Token(3, 5, "🎉", "🚀", 15) == "🎉🚀";
    assert Tokens(3, 5, "🎉", "🚀", 15) == ["1", "2", "🎉", "4", "🚀", "🎉", "7", "8", "🎉", "🚀", "11", "🎉", "13", "14", "🎉🚀"];
  }

  /** A single position has no separator at all. */
  lemma LimitOneVector()
    ensures Expected(1, 2, 1, "a", "b") == Ok("a")
  {
    assert Token(1, 2, "a", "b", 1) == "a";
    assert Tokens(1, 2, "a", "b", 1) == ["a"];
  }

  /** Divisor 1 with 2: every even position is combined, every odd one takes the first word. */
  lemma DivisorOneVector()
    ensures Expected(1, 2, 10, "a", "b") == Ok(Text.Join(["a", "ab", "a", "ab", "a", "ab", "a", "ab", "a", "ab"]))
  {
    assert Token(1, 2, "a", "b", 1) == "a";
    assert Token(1, 2, "a", "b", 2) == "ab";
    assert Token(1, 2, "a", "b", 3) == "a";
    assert Token(1, 2, "a", "b", 4) == "ab";
    assert Token(1, 2, "a", "b", 5) == "a";
    assert Token(1, 2, "a", "b", 6) == "ab";
    assert Token(1, 2, "a", "b", 7) == "a";
    assert Token(1, 2, "a", "b", 8) == "ab";
    assert Token(1, 2, "a", "b", 9) == "a";
    assert Token(1, 2, "a", "b", 10) == "ab";
    assert Tokens(1, 2, "a", "b", 10) == ["a", "ab", "a", "ab", "a", "ab", "a", "ab", "a", "ab"];
  }

  /** The classic sequence up to 21. */
  lemma ClassicVector()
    ensures Expected(3, 5, 21, "Fizz", "Buzz") == Ok(Text.Join(["1", "2", "Fizz", "4", "Buzz", "Fizz", "7", "8", "Fizz", "Buzz", "11", "Fizz", "13", "14", "FizzBuzz", "16", "17", "Fizz", "19", "Buzz", "Fizz"]))
  {
    ClassicUpTo14();
    assert Token(3, 5, "Fizz", "Buzz", 15) == "FizzBuzz";
    assert Token(3, 5, "Fizz", "Buzz", 16) == "16";
    assert Token(3, 5, "Fizz", "Buzz", 17) == "17";
    assert Token(3, 5, "Fizz", "Buzz", 18) == "Fizz";
    assert Token(3, 5, "Fizz", "Buzz", 19) == "19";
    assert Token(3, 5, "Fizz", "Buzz", 20) == "Buzz";
    assert Token(3, 5, "Fizz", "Buzz", 21) == "Fizz";
    assert Tokens(3, 5, "Fizz", "Buzz", 21) == ["1", "2", "Fizz", "4", "Buzz", "Fizz", "7", "8", "Fizz", "Buzz", "11", "Fizz", "13", "14", "FizzBuzz", "16", "17", "Fizz", "19", "Buzz", "Fizz"];
  }

  lemma ClassicUpTo14()
    ensures Tokens(3, 5, "Fizz", "Buzz", 14) == ["1", "2", "Fizz", "4", "Buzz", "Fizz", "7", "8", "Fizz", "Buzz", "11", "Fizz", "13", "14"]
  {
    ClassicUpTo7();
    assert Token(3, 5, "Fizz", "Buzz", 8) == "8";
    assert Token(3, 5, "Fizz", "Buzz", 9) == "Fizz";
    assert Token(3, 5, "Fizz", "Buzz", 10) == "Buzz";
    assert Token(3, 5, "Fizz", "Buzz", 11) == "11";
    assert Token(3, 5, "Fizz", "Buzz", 12) == "Fizz";
    assert Token(3, 5, "Fizz", "Buzz", 13) == "13";
    assert Token(3, 5, "Fizz", "Buzz", 14) == "14";
  }

  lemma ClassicUpTo7()
    ensures Tokens(3, 5, "Fizz", "Buzz", 7) == ["1", "2", "Fizz", "4", "Buzz", "Fizz", "7"]
  {
    assert Token(3, 5, "Fizz", "Buzz", 1) == "1";
    assert Token(3, 5, "Fizz", "Buzz", 2) == "2";
    assert Token(3, 5, "Fizz", "Buzz", 3) == "Fizz";
    assert Token(3, 5, "Fizz", "Buzz", 4) == "4";
    assert Token(3, 5, "Fizz", "Buzz", 5) == "Buzz";
    assert Token(3, 5, "Fizz", "Buzz", 6) == "Fizz";
    assert Token(3, 5, "Fizz", "Buzz", 7) == "7";
  }

  /** The comma join of these literal tokens, spelled out. */
  lemma {:induction false} EqualDivisorsText()
    ensures Text.Join(["1", "2", "FizzBuzz", "4", "5"]) == "1,2,FizzBuzz,4,5"
  {
    var p := ["1", "2", "FizzBuzz", "4", "5"];
    assert p[1..] == ["2", "FizzBuzz", "4", "5"];
    assert p[2..] == ["FizzBuzz", "4", "5"];
    assert p[3..] == ["4", "5"];
    assert p[4..] == ["5"];
    assert Text.Join(p[4..]) == "5";
    assert "4" + "," + "5" == "4,5";
    assert Text.Join(p[3..]) == "4,5";
    assert "FizzBuzz" + "," + "4,5" == "FizzBuzz,4,5";
    assert Text.Join(p[2..]) == "FizzBuzz,4,5";
    assert "2" + "," + "FizzBuzz,4,5" == "2,FizzBuzz,4,5";
    assert Text.Join(p[1..]) == "2,FizzBuzz,4,5";
    assert "1" + "," + "2,FizzBuzz,4,5" == "1,2,FizzBuzz,4,5";
  }

  /** The comma join of these literal tokens, spelled out. */
  lemma {:induction false} EmptyWordsText()
    ensures Text.Join(["1", "2", "", "4", ""]) == "1,2,,4,"
  {
    var p := ["1", "2", "", "4", ""];
    assert p[1..] == ["2", "", "4", ""];
    assert p[2..] == ["", "4", ""];
    assert p[3..] == ["4", ""];
    assert p[4..] == [""];
    assert Text.Join(p[4..]) == "";
    assert Text.Join(p[3..]) == "4,";
    assert Text.Join(p[2..]) == ",4,";
    assert Text.Join(p[1..]) == "2,,4,";
  }
}
