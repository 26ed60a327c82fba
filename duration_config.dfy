/**
 * `parseIntOrDurationValue`: resolves a timeout setting that is either a
 * count of whole seconds or a Go duration literal, with a fallback.
 *
 * `time.ParseDuration` is not modelled in full: it is a parameter of type
 * `string -> Option<Duration>`, and the lemmas assume only what
 * `BareNumberBehaviour` says of it.
 */
module DurationConfig {
  import opened Wrappers
  import opened Strconv

  /** `time.Duration`: a signed 64-bit count of nanoseconds. */
  type Duration = d: int | MinInt64 <= d <= MaxInt64

  const Second: Duration := 1_000_000_000

  /** The largest whole-second count whose duration fits in 64 bits. */
  const MaxWholeSeconds: int := MaxInt64 / Second

  const TwoTo64: int := 0x1_0000_0000_0000_0000

  /** Two's-complement wrap-around of a signed 64-bit product, as Go's `*` on `time.Duration` does. */
  function Wrap64(x: int): (r: Duration)
    ensures (x - r) % TwoTo64 == 0
    ensures MinInt64 <= x <= MaxInt64 ==> r == x
  {
    (x - MinInt64) % TwoTo64 + MinInt64
  }

  /**
   * The two facts about `time.ParseDuration` the shim depends on: the empty
   * string and a lone sign are invalid, and a number without a unit is
   * invalid unless its digits are exactly "0" (Go's special case, which also
   * accepts "+0" and "-0").
   */
  ghost predicate BareNumberBehaviour(parseDuration: string -> Option<Duration>) {
    && parseDuration("") == None
    && parseDuration("+") == None
    && parseDuration("-") == None
    && forall s :: IsSignedDigits(s) ==>
         parseDuration(s) == if Unsigned(s) == "0" then Some(0) else None
  }

  /** An optional sign followed by one or more decimal digits, and nothing else. */
  predicate IsSignedDigits(s: string) {
    var u := Unsigned(s);
    |u| > 0 && AllDigits(u)
  }

  /**
   * `parseIntOrDurationValue(val, fallback)`: a non-empty `val` that `Atoi`
   * accepts with a non-negative value is that many seconds; otherwise whatever
   * `time.ParseDuration` accepts; otherwise `fallback`.
   */
  function ParseIntOrDurationValue(val: string, fallback: Duration,
                                   parseDuration: string -> Option<Duration>): (d: Duration)
    ensures
      || (Atoi(val).Some? && Atoi(val).value >= 0 && d == Wrap64(Atoi(val).value * Second))
      || parseDuration(val) == Some(d)
      || d == fallback
    ensures Atoi(val).Some? && 0 <= Atoi(val).value <= MaxWholeSeconds ==> d == Atoi(val).value * Second
  {
    if |val| > 0 && Atoi(val).Some? && Atoi(val).value >= 0 then
      Wrap64(Atoi(val).value * Second)
    else
      match parseDuration(val)
      case Some(duration) => duration
      case None => fallback
  }

  /**
   * A digit string, bare or after a `+`, whose value fits is read as whole
   * seconds, whatever `time.ParseDuration` would have said: "30" is 30s and
   * "+5" is 5s.
   */
  lemma IntegerSecondsTakePrecedence(sign: string, digits: string, fallback: Duration,
                                     parseDuration: string -> Option<Duration>)
    requires sign == "" || sign == "+"
    requires |digits| > 0 && AllDigits(digits)
    requires DecimalValue(digits) <= MaxWholeSeconds
    ensures ParseIntOrDurationValue(sign + digits, fallback, parseDuration) == DecimalValue(digits) * Second
  {
    AtoiOfSignedDigits(sign, digits);
  }

  /**
   * Whole-second counts above `MaxWholeSeconds` that `Atoi` still accepts,
   * bare or after a `+`, overflow the nanosecond product and wrap around:
   * "9223372037" and "+9223372037" become a negative duration.
   */
  lemma WholeSecondsWrapAround(sign: string, digits: string, fallback: Duration,
                               parseDuration: string -> Option<Duration>)
    requires sign == "" || sign == "+"
    requires |digits| > 0 && AllDigits(digits)
    requires MaxWholeSeconds < DecimalValue(digits) <= MaxInt64
    ensures ParseIntOrDurationValue(sign + digits, fallback, parseDuration)
            == Wrap64(DecimalValue(digits) * Second)
  {
    AtoiOfSignedDigits(sign, digits);
  }

  /**
   * A negative integer such as "-1" is refused by the seconds grammar and, as
   * it has no unit, by `time.ParseDuration` too: the fallback is returned.
   */
  lemma NegativeIntegerFallsBack(digits: string, fallback: Duration,
                                 parseDuration: string -> Option<Duration>)
    requires BareNumberBehaviour(parseDuration)
    requires |digits| > 0 && AllDigits(digits)
    requires DecimalValue(digits) > 0
    ensures ParseIntOrDurationValue("-" + digits, fallback, parseDuration) == fallback
  {
    var s := "-" + digits;
    AtoiOfSignedDigits("-", digits);
    UnsignedOfSignedDigits("-", digits);
    assert IsSignedDigits(s);
    assert digits != "0" by {
      assert !AllZeros(digits);
      assert AllZeros("0");
    }
  }

  /**
   * A digit string too large for `Atoi` (more than 2^63 - 1) is not a
   * duration either: the fallback is returned.
   */
  lemma OutOfRangeIntegerFallsBack(sign: string, digits: string, fallback: Duration,
                                   parseDuration: string -> Option<Duration>)
    requires BareNumberBehaviour(parseDuration)
    requires sign == "" || sign == "+"
    requires |digits| > 0 && AllDigits(digits)
    requires DecimalValue(digits) > MaxInt64
    ensures ParseIntOrDurationValue(sign + digits, fallback, parseDuration) == fallback
  {
    var s := sign + digits;
    AtoiOfSignedDigits(sign, digits);
    assert Atoi(s).None?;
    UnsignedOfSignedDigits(sign, digits);
    assert IsSignedDigits(s);
    assert digits != "0" by {
      assert !AllZeros(digits);
      assert AllZeros("0");
    }
  }

  /** The empty string never reaches `Atoi`, and `time.ParseDuration` refuses it. */
  lemma EmptyFallsBack(fallback: Duration, parseDuration: string -> Option<Duration>)
    requires BareNumberBehaviour(parseDuration)
    ensures ParseIntOrDurationValue("", fallback, parseDuration) == fallback
  {
  }

  /**
   * When the seconds grammar declines, the result is exactly what
   * `time.ParseDuration` gives, or the fallback when it fails.
   */
  lemma DurationGrammarOtherwise(val: string, fallback: Duration,
                                 parseDuration: string -> Option<Duration>)
    requires Atoi(val).None? || Atoi(val).value < 0
    ensures ParseIntOrDurationValue(val, fallback, parseDuration) == parseDuration(val).GetOr(fallback)
  {
  }

  /**
   * No lower bound is enforced: if `time.ParseDuration` accepts "-5s" as minus
   * five seconds, that negative duration is the result.
   */
  lemma NegativeDurationPassesThrough(fallback: Duration, parseDuration: string -> Option<Duration>)
    requires parseDuration("-5s") == Some(-5 * Second)
    ensures ParseIntOrDurationValue("-5s", fallback, parseDuration) < 0
  {
    assert !AllDigits(Unsigned("-5s")) by {
      assert Unsigned("-5s")[1] == 's';
    }
  }

  /**
   * Worked cases with a five-second fallback: "30" is 30s and "2m" whatever
   * `time.ParseDuration` reads it as; "", "-1" and "bogus" give the fallback.
   */
  lemma ResolveExamples(parseDuration: string -> Option<Duration>)
    requires BareNumberBehaviour(parseDuration)
    requires parseDuration("2m") == Some(120 * Second)
    requires parseDuration("bogus") == None
    ensures ParseIntOrDurationValue("30", 5 * Second, parseDuration) == 30 * Second
    ensures ParseIntOrDurationValue("2m", 5 * Second, parseDuration) == 120 * Second
    ensures ParseIntOrDurationValue("", 5 * Second, parseDuration) == 5 * Second
    ensures ParseIntOrDurationValue("-1", 5 * Second, parseDuration) == 5 * Second
    ensures ParseIntOrDurationValue("bogus", 5 * Second, parseDuration) == 5 * Second
  {
    assert ParseIntOrDurationValue("30", 5 * Second, parseDuration) == 30 * Second by {
      assert "30"[..1] == "3";
      assert DecimalValue("30") == 30;
      assert "" + "30" == "30";
      IntegerSecondsTakePrecedence("", "30", 5 * Second, parseDuration);
    }
    assert ParseIntOrDurationValue("2m", 5 * Second, parseDuration) == 120 * Second by {
      assert Unsigned("2m")[1] == 'm';
      assert Atoi("2m").None?;
    }
    assert ParseIntOrDurationValue("bogus", 5 * Second, parseDuration) == 5 * Second by {
      assert Unsigned("bogus")[0] == 'b';
      assert Atoi("bogus").None?;
    }
    EmptyFallsBack(5 * Second, parseDuration);
    assert ParseIntOrDurationValue("-1", 5 * Second, parseDuration) == 5 * Second by {
      assert "-" + "1" == "-1";
      NegativeIntegerFallsBack("1", 5 * Second, parseDuration);
    }
  }
}
