/**
 * The part of Go's `strconv` package (and of `fmt`'s `%d`) that the gateway relies on:
 * base-10 `ParseInt` with bit size 64, `ParseFloat` restricted to plain decimals, and
 * decimal formatting of an `int64`.
 */
module Strconv {
  import opened Base
  import Strings

  const MaxUint64: int := 0xffff_ffff_ffff_ffff

  datatype NumErrorKind = ErrSyntax | ErrRange

  /** `*strconv.NumError`: the function that failed, the input it was given, and why. */
  datatype NumError = NumError(fn: string, num: string, err: NumErrorKind)

  predicate IsDigit(c: char) {
    '0' <= c <= '9'
  }

  predicate AllDigits(s: string) {
    forall i | 0 <= i < |s| :: IsDigit(s[i])
  }

  function DigitValue(c: char): nat
    requires IsDigit(c)
  {
    (c as int) - ('0' as int)
  }

  function Digit(d: nat): (c: char)
    requires d < 10
    ensures IsDigit(c) && DigitValue(c) == d
  {
    ('0' as int + d) as char
  }

  /** The number a string of decimal digits denotes, read most significant digit first. */
  function DigitsValue(s: string): nat
    requires AllDigits(s)
    decreases |s|
  {
    if s == [] then 0 else DigitsValue(s[..|s| - 1]) * 10 + DigitValue(s[|s| - 1])
  }

  function Pow10(k: nat): (p: nat)
    ensures p >= 1
  {
    if k == 0 then 1 else 10 * Pow10(k - 1)
  }

  /** The digits of a number below 10^k stay below 10^k. */
  lemma {:induction false} DigitsValueBound(s: string)
    requires AllDigits(s)
    ensures DigitsValue(s) < Pow10(|s|)
    decreases |s|
  {
    if s != [] {
      DigitsValueBound(s[..|s| - 1]);
    }
  }

  /** A prefix of a digit string never denotes more than the whole string. */
  lemma {:induction false} PrefixValueAtMost(s: string, k: nat)
    requires AllDigits(s) && k <= |s|
    ensures AllDigits(s[..k]) && DigitsValue(s[..k]) <= DigitsValue(s)
    decreases |s| - k
  {
    if k == |s| {
      assert s[..k] == s;
    } else {
      PrefixValueAtMost(s, k + 1);
      assert s[..k + 1][..k] == s[..k];
    }
  }

  /**
   * The digit loop of `strconv.ParseUint(s, 10, 64)` from position `i` with accumulator `acc`:
   * a non-digit is a syntax error; a digit that would take the value past 2^64-1 is a range error,
   * reported at the first digit that overflows.
   */
  function ScanUint(s: string, i: nat, acc: nat): Result<nat, NumErrorKind>
    requires i <= |s|
    decreases |s| - i
  {
    if i == |s| then Ok(acc)
    else if !IsDigit(s[i]) then Err(ErrSyntax)
    else if acc * 10 + DigitValue(s[i]) > MaxUint64 then Err(ErrRange)
    else ScanUint(s, i + 1, acc * 10 + DigitValue(s[i]))
  }

  lemma {:induction false} ScanUintMeaning(s: string, i: nat, acc: nat)
    requires i <= |s| && AllDigits(s[..i]) && acc == DigitsValue(s[..i]) && acc <= MaxUint64
    ensures ScanUint(s, i, acc).Ok? <==> AllDigits(s) && DigitsValue(s) <= MaxUint64
    ensures ScanUint(s, i, acc).Ok? ==> ScanUint(s, i, acc).value == DigitsValue(s)
    ensures AllDigits(s) && ScanUint(s, i, acc).Err? ==> ScanUint(s, i, acc).error == ErrRange
    decreases |s| - i
  {
    if i == |s| {
      assert s[..i] == s;
    } else if IsDigit(s[i]) {
      var acc' := acc * 10 + DigitValue(s[i]);
      assert s[..i + 1][..i] == s[..i];
      assert AllDigits(s[..i + 1]);
      assert DigitsValue(s[..i + 1]) == acc';
      if acc' > MaxUint64 {
        if AllDigits(s) {
          PrefixValueAtMost(s, i + 1);
        }
      } else {
        ScanUintMeaning(s, i + 1, acc');
      }
    }
  }

  /** `strconv.ParseUint(s, 10, 64)`. */
  function ParseUint(s: string): Result<nat, NumErrorKind> {
    if s == "" then Err(ErrSyntax) else ScanUint(s, 0, 0)
  }

  /** The string without its one optional leading sign. */
  function Unsigned(s: string): string {
    if |s| > 0 && (s[0] == '+' || s[0] == '-') then s[1..] else s
  }

  /** The syntax `ParseInt` accepts in base 10: an optional sign followed by one or more digits. */
  predicate IsDecimalInteger(s: string) {
    |s| > 0 && |Unsigned(s)| > 0 && AllDigits(Unsigned(s))
  }

  function DecimalValue(s: string): int
    requires IsDecimalInteger(s)
  {
    if s[0] == '-' then -(DigitsValue(Unsigned(s)) as int) else DigitsValue(Unsigned(s))
  }

  /** `strconv.ParseInt(s, 10, 64)`. */
  function ParseInt(s: string): (r: Result<Int64, NumError>)
    ensures r.Err? ==> r.error.fn == "ParseInt" && r.error.num == s
  {
    if s == "" then Err(NumError("ParseInt", s, ErrSyntax))
    else
      var neg := s[0] == '-';
      match ParseUint(Unsigned(s))
      case Err(k) => Err(NumError("ParseInt", s, k))
      case Ok(un) =>
        if !neg && un > MaxInt64 then Err(NumError("ParseInt", s, ErrRange))
        else if neg && un > -MinInt64 then Err(NumError("ParseInt", s, ErrRange))
        else Ok(if neg then -(un as int) else un)
  }

  /**
   * `ParseInt` accepts exactly the decimal integers in `int64` range, and returns their value;
   * a decimal integer outside that range is a range error.
   */
  lemma ParseIntMeaning(s: string)
    ensures ParseInt(s).Ok? <==> IsDecimalInteger(s) && InInt64(DecimalValue(s))
    ensures ParseInt(s).Ok? ==> ParseInt(s).value == DecimalValue(s)
    ensures IsDecimalInteger(s) && !InInt64(DecimalValue(s)) ==> ParseInt(s).Err? && ParseInt(s).error.err == ErrRange
  {
    if s != "" && Unsigned(s) != "" {
      assert Unsigned(s)[..0] == [];
      ScanUintMeaning(Unsigned(s), 0, 0);
    }
  }

  /** The plain-decimal syntax: an optional sign, digits, and an optional `.` followed by digits, with at least one digit. */
  datatype Decimal = Decimal(negative: bool, intDigits: string, fracDigits: string)

  function SplitDecimal(s: string): (d: Decimal)
    ensures s != "" && s[0] == '-' ==> d.negative
  {
    var body := Unsigned(s);
    var dot := Strings.IndexByte(body, '.');
    if dot == -1 then Decimal(|s| > 0 && s[0] == '-', body, "")
    else Decimal(|s| > 0 && s[0] == '-', body[..dot], body[dot + 1..])
  }

  predicate IsPlainDecimal(d: Decimal) {
    AllDigits(d.intDigits) && AllDigits(d.fracDigits) && |d.intDigits| + |d.fracDigits| > 0
  }

  /** The exact magnitude a plain decimal denotes. */
  function DecimalMagnitude(d: Decimal): real
    requires IsPlainDecimal(d)
  {
    DigitsValue(d.intDigits) as real + DigitsValue(d.fracDigits) as real / Pow10(|d.fracDigits|) as real
  }

  function DecimalReal(d: Decimal): real
    requires IsPlainDecimal(d)
  {
    if d.negative then -DecimalMagnitude(d) else DecimalMagnitude(d)
  }

  /**
   * The smallest magnitude that rounds to infinity as a `float64`: 2^1024 - 2^970, halfway
   * between the largest finite `float64`, (2 - 2^-52) * 2^1023, and 2^1024. A tie rounds to even,
   * which here is upward.
   */
  const FloatOverflow: int :=
    179_769_313_486_231_580_793_728_971_405_303_415_079_934_132_710_037_826_936_173_778_980_444_968_292_764_750_946_649_017_977_587_207_096_330_286_416_692_887_910_946_555_547_851_940_402_630_657_488_671_505_820_681_908_902_000_708_383_676_273_854_845_817_711_531_764_475_730_270_069_855_571_366_959_622_842_914_819_860_834_936_475_292_719_074_168_444_365_510_704_342_711_559_699_508_093_042_880_177_904_174_497_792

  /**
   * `strconv.ParseFloat(s, 64)` on plain decimals: a syntax error for every other form, a range
   * error when the magnitude rounds to infinity, and otherwise the exact value.
   */
  function ParseFloat(s: string): (r: Result<real, NumError>)
    ensures r.Err? ==> r.error.fn == "ParseFloat" && r.error.num == s
  {
    var d := SplitDecimal(s);
    if s == "" || !IsPlainDecimal(d) then Err(NumError("ParseFloat", s, ErrSyntax))
    else if DecimalMagnitude(d) >= FloatOverflow as real then Err(NumError("ParseFloat", s, ErrRange))
    else Ok(DecimalReal(d))
  }

  /**
   * A decimal integer is also a plain decimal: `ParseFloat` gives its value, or a range error
   * when its magnitude reaches the float overflow bound.
   */
  lemma IntegerTextAsFloat(s: string)
    requires IsDecimalInteger(s)
    ensures var v := DecimalValue(s);
      ParseFloat(s) == if v >= FloatOverflow || v <= -FloatOverflow then Err(NumError("ParseFloat", s, ErrRange))
                       else Ok(v as real)
  {
  }

  /** `fmt`'s `%d` of a natural number: its decimal digits, most significant first. */
  function FormatNat(n: nat): (s: string)
    ensures |s| > 0 && AllDigits(s) && DigitsValue(s) == n
    ensures s[0] == '0' ==> s == "0"
    decreases n
  {
    if n < 10 then [Digit(n)]
    else
      var prefix := FormatNat(n / 10);
      var s := prefix + [Digit(n % 10)];
      assert s[..|s| - 1] == prefix;
      s
  }

  /** `fmt`'s `%d` of an integer: a leading `-` for negative numbers, then the digits. */
  function FormatInt(x: int): (s: string)
    ensures IsDecimalInteger(s) && DecimalValue(s) == x
    ensures x >= 0 ==> IsDigit(s[0])
    ensures x < 0 ==> s[0] == '-'
    ensures Unsigned(s)[0] == '0' ==> Unsigned(s) == "0"
  {
    if x < 0 then "-" + FormatNat(-x) else FormatNat(x)
  }

  /** Formatting an `int64` with `%d` and parsing it back with `ParseInt` gives the same number. */
  lemma FormatParseRoundTrip(x: Int64)
    ensures ParseInt(FormatInt(x)) == Ok(x)
  {
    ParseIntMeaning(FormatInt(x));
  }
}
