/**
 * Go's `strconv.Atoi` on a 64-bit platform, and the decimal formatter that
 * inverts it.  Go strings are byte strings; only ASCII characters matter to
 * the grammar, so a string is modelled as `seq<char>`.
 */
module Strconv {
  import opened Wrappers

  const MinInt64: int := -0x8000_0000_0000_0000
  const MaxInt64: int := 0x7fff_ffff_ffff_ffff

  predicate IsDigit(c: char) {
    '0' <= c <= '9'
  }

  predicate AllDigits(s: string) {
    forall i :: 0 <= i < |s| ==> IsDigit(s[i])
  }

  predicate AllZeros(s: string) {
    forall i :: 0 <= i < |s| ==> s[i] == '0'
  }

  function DigitValue(c: char): (d: nat)
    requires IsDigit(c)
    ensures d < 10
  {
    c as int - '0' as int
  }

  function DigitChar(d: nat): (c: char)
    requires d < 10
    ensures IsDigit(c) && DigitValue(c) == d
  {
    ('0' as int + d) as char
  }

  /** The value of a string of decimal digits, most significant first. */
  function DecimalValue(ds: string): (n: nat)
    requires AllDigits(ds)
    ensures n == 0 <==> AllZeros(ds)
    decreases |ds|
  {
    if |ds| == 0 then 0
    else
      var prefix := ds[..|ds| - 1];
      assert AllZeros(ds) <==> AllZeros(prefix) && ds[|ds| - 1] == '0';
      DecimalValue(prefix) * 10 + DigitValue(ds[|ds| - 1])
  }

  /** The string with one leading sign character, if any, removed. */
  function Unsigned(s: string): (u: string)
    ensures |u| <= |s|
  {
    if |s| > 0 && (s[0] == '+' || s[0] == '-') then s[1..] else s
  }

  /**
   * `strconv.Atoi`: an optional `+` or `-`, then one or more decimal digits
   * (leading zeros allowed, no underscores), whose value must fit in a 64-bit
   * `int`.  The empty string, a lone sign, any other character and an
   * out-of-range value are all errors (`None`).
   */
  function Atoi(s: string): (r: Option<int>)
    ensures r.Some? ==> MinInt64 <= r.value <= MaxInt64
    ensures r.Some? ==> |s| > 0 && AllDigits(Unsigned(s)) && |Unsigned(s)| > 0
    ensures r.Some? && r.value < 0 ==> s[0] == '-'
  {
    if |s| == 0 then None
    else
      var digits := Unsigned(s);
      if |digits| == 0 || !AllDigits(digits) then None
      else
        var v: int := if s[0] == '-' then -(DecimalValue(digits) as int) else DecimalValue(digits);
        if MinInt64 <= v <= MaxInt64 then Some(v) else None
  }

  /** The shortest decimal spelling of a natural number. */
  function FormatNat(n: nat): (s: string)
    ensures |s| > 0 && AllDigits(s)
    decreases n
  {
    if n < 10 then [DigitChar(n)] else FormatNat(n / 10) + [DigitChar(n % 10)]
  }

  /** `strconv.Itoa`: decimal spelling with a leading `-` for negative numbers. */
  function Itoa(n: int): string {
    if n < 0 then "-" + FormatNat(-n) else FormatNat(n)
  }

  lemma {:induction false} DecimalValueOfFormatNat(n: nat)
    ensures DecimalValue(FormatNat(n)) == n
    decreases n
  {
    if n >= 10 {
      var s := FormatNat(n);
      assert s[..|s| - 1] == FormatNat(n / 10);
      DecimalValueOfFormatNat(n / 10);
    }
  }

  /** `Atoi` inverts `Itoa` on every 64-bit integer. */
  lemma AtoiItoa(n: int)
    requires MinInt64 <= n <= MaxInt64
    ensures Atoi(Itoa(n)) == Some(n)
  {
    var sign := if n < 0 then "-" else "";
    var m: nat := if n < 0 then -n else n;
    assert Itoa(n) == sign + FormatNat(m);
    DecimalValueOfFormatNat(m);
    AtoiOfSignedDigits(sign, FormatNat(m));
  }

  /** A leading `+` is accepted and does not change the value: `Atoi("+5") == Some(5)`. */
  lemma AtoiPlusSign(n: nat)
    requires n <= MaxInt64
    ensures Atoi("+" + FormatNat(n)) == Some(n)
  {
    DecimalValueOfFormatNat(n);
    AtoiOfSignedDigits("+", FormatNat(n));
  }

  /** `Unsigned` strips exactly the one sign character put in front of a digit string. */
  lemma UnsignedOfSignedDigits(sign: string, digits: string)
    requires sign == "" || sign == "+" || sign == "-"
    requires |digits| > 0 && AllDigits(digits)
    ensures Unsigned(sign + digits) == digits
  {
    var s := sign + digits;
    if sign == "" {
      assert s == digits;
      assert IsDigit(digits[0]);
    } else {
      assert s[1..] == digits;
    }
  }

  /** What `Atoi` returns for a digit string with an optional sign in front. */
  lemma AtoiOfSignedDigits(sign: string, digits: string)
    requires sign == "" || sign == "+" || sign == "-"
    requires |digits| > 0 && AllDigits(digits)
    ensures var v: int := if sign == "-" then -(DecimalValue(digits) as int) else DecimalValue(digits);
            Atoi(sign + digits) == if MinInt64 <= v <= MaxInt64 then Some(v) else None
  {
    var s := sign + digits;
    UnsignedOfSignedDigits(sign, digits);
    assert |s| > 0;
    assert s[0] == '-' <==> sign == "-" by {
      if sign == "" {
        assert s[0] == digits[0] && IsDigit(digits[0]);
      } else {
        assert s[0] == sign[0];
      }
    }
  }
}
