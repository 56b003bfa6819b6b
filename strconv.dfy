/**
 * Go's `strconv.Atoi` on a 64-bit `int`, and the decimal rendering that
 * `fmt`'s `%d` verb produces, which `Atoi` inverts.
 */
module Strconv {
  import opened Wrappers

  const MinInt64: int := -0x8000_0000_0000_0000
  const MaxInt64: int := 0x7FFF_FFFF_FFFF_FFFF

  predicate InInt64(n: int) {
    MinInt64 <= n <= MaxInt64
  }

  predicate IsDigit(c: char) {
    '0' <= c <= '9'
  }

  predicate AllDigits(s: string) {
    forall i :: 0 <= i < |s| ==> IsDigit(s[i])
  }

  function DigitValue(c: char): nat
    requires IsDigit(c)
  {
    c as int - '0' as int
  }

  function DigitChar(d: nat): char
    requires d < 10
  {
    ('0' as int + d) as char
  }

  /** Value of a string of decimal digits, most significant first. */
  function DecimalValue(s: string): nat
    requires AllDigits(s)
  {
    if s == [] then 0 else 10 * DecimalValue(s[..|s| - 1]) + DigitValue(s[|s| - 1])
  }

  /** What follows the optional sign of a non-empty text. */
  function Unsigned(s: string): string
    requires |s| > 0
  {
    if s[0] == '+' || s[0] == '-' then s[1..] else s
  }

  /**
   * `strconv.Atoi(s)`: an optional `+` or `-`, then at least one decimal digit
   * and nothing else; the value must fit a 64-bit `int`, otherwise Go reports a
   * range error. `None` stands for Go's non-nil error.
   */
  function Atoi(s: string): (r: Option<int>)
    ensures r.Some? ==> InInt64(r.value)
    ensures r.Some? ==> |s| > 0 && (IsDigit(s[0]) || s[0] == '+' || s[0] == '-')
    ensures r.Some? ==> |s| > 0 && Unsigned(s) != [] && AllDigits(Unsigned(s))
  {
    if s == [] then None
    else
      var negative := s[0] == '-';
      var digits := Unsigned(s);
      if digits == [] || !AllDigits(digits) then None
      else
        var v := if negative then -(DecimalValue(digits) as int) else DecimalValue(digits);
        if InInt64(v) then Some(v) else None
  }

  /** Decimal digits of `n`, no leading zeros. */
  function Decimal(n: nat): (s: string)
    ensures |s| > 0 && AllDigits(s)
    ensures s[0] == '0' ==> n == 0
  {
    if n < 10 then [DigitChar(n)] else Decimal(n / 10) + [DigitChar(n % 10)]
  }

  /** `fmt.Sprintf("%d", n)`. */
  function Itoa(n: int): (s: string)
    ensures n >= 0 ==> |s| > 0 && AllDigits(s)
    ensures n < 0 ==> |s| > 1 && s[0] == '-' && AllDigits(s[1..])
    ensures n >= 0 && s[0] == '0' ==> n == 0
    ensures n < 0 ==> s[1] != '0'
  {
    if n < 0 then "-" + Decimal(-n) else Decimal(n)
  }

  lemma {:induction false} DecimalValueOfDecimal(n: nat)
    ensures DecimalValue(Decimal(n)) == n
  {
    var s := Decimal(n);
    if n >= 10 {
      DecimalValueOfDecimal(n / 10);
      assert s[..|s| - 1] == Decimal(n / 10);
    }
  }

  /** Parsing the decimal rendering of any 64-bit integer gives it back. */
  lemma AtoiItoa(n: int)
    requires InInt64(n)
    ensures Atoi(Itoa(n)) == Some(n)
  {
    var d := Decimal(if n < 0 then -n else n);
    DecimalValueOfDecimal(if n < 0 then -n else n);
    AtoiDigits(d);
  }

  /** The rendering of an integer holds no character other than digits and a leading minus. */
  lemma ItoaCharacters(n: int, c: char)
    requires !IsDigit(c)
    requires c == '-' ==> n >= 0
    ensures c !in Itoa(n)
  {
    if n < 0 {
      assert Itoa(n) == ['-'] + Decimal(-n);
    }
  }

  /**
   * `Atoi` on a run of digits, bare or after a sign: the digits' value, negated
   * after `-`, when it fits a 64-bit integer, and an error otherwise. Leading
   * zeros are accepted (`08` is 8).
   */
  lemma AtoiDigits(d: string)
    requires d != [] && AllDigits(d)
    ensures DecimalValue(d) <= MaxInt64 ==>
      Atoi(d) == Some(DecimalValue(d)) && Atoi("+" + d) == Some(DecimalValue(d))
    ensures DecimalValue(d) <= MaxInt64 + 1 ==> Atoi("-" + d) == Some(-(DecimalValue(d) as int))
    ensures DecimalValue(d) > MaxInt64 ==> Atoi(d).None? && Atoi("+" + d).None?
    ensures DecimalValue(d) > MaxInt64 + 1 ==> Atoi("-" + d).None?
  {
    assert ("+" + d)[1..] == d;
    var m := "-" + d;
    assert m[0] == '-' && m[1..] == d;
  }

  /** Two examples Go's `strconv.Atoi` accepts beyond the plain rendering. */
  lemma AtoiExamples()
    ensures Atoi("+8") == Some(8) && Atoi("08") == Some(8)
  {
    AtoiDigits("8");
    assert "+8" == "+" + "8";
    assert DecimalValue("08") == 8 by {
      assert "08"[..1] == "0";
    }
  }
}
