/**
 * The identifier normalizer of package `internal/util`: turning a loosely typed, already
 * decoded JSON value into an `int64`, strictly (`ParseChatID`) or leniently (`ParseToInt64`).
 */
module Util {
  import opened Base
  import opened Strconv

  /**
   * The dynamic value held by an `interface{}`, by its type:
   * `nil`, a Go `int`, an `int64`, a `float64` (its value as an exact real), a `string`, or
   * any other type, carrying the `float64` that its JSON encoding unmarshals into, if it does:
   * for a JSON number within float64 range that is its value, for `null` (a typed nil pointer,
   * slice or map) it is 0, as unmarshalling `null` leaves the float untouched; `None` when the
   * unmarshal fails.
   */
  datatype Value =
    | Absent
    | IntV(i: Int64)
    | Int64V(i: Int64)
    | FloatV(f: real)
    | Str(s: string)
    | Other(asJSONNumber: Option<real>)

  datatype ChatIDError =
    | EmptyChatID
    | NilChatID
    | BadNumber(cause: NumError)
    | UnsupportedType

  /** Truncation of a real toward zero. */
  function Trunc(x: real): (t: int)
    ensures 0.0 <= x ==> 0 <= t && t as real <= x < t as real + 1.0
    ensures x < 0.0 ==> t <= 0 && t as real - 1.0 < x <= t as real
  {
    if x >= 0.0 then x.Floor else -((-x).Floor)
  }

  /**
   * The conversion `int64(f)` of a `float64`: truncation toward zero. A value whose integer part
   * lies outside the `int64` range converts to MinInt64, the result amd64 hardware gives.
   */
  function FloatToInt64(x: real): (r: Int64)
    ensures InInt64(Trunc(x)) ==> r == Trunc(x)
    ensures !InInt64(Trunc(x)) ==> r == MinInt64
  {
    var t := Trunc(x);
    if InInt64(t) then t else MinInt64
  }

  /** `ParseChatID`: the strict normalizer, which reports why a value is not an identifier. */
  function ParseChatID(v: Value): (r: Result<Int64, ChatIDError>)
    ensures v.Int64V? || v.IntV? ==> r == Ok(v.i)
    ensures v.FloatV? ==> r == Ok(FloatToInt64(v.f))
    ensures v.Absent? ==> r == Err(NilChatID)
    ensures v == Str("") ==> r == Err(EmptyChatID)
    ensures v.Str? && v.s != "" && ParseInt(v.s).Err? && ParseFloat(v.s).Err? ==>
              r == Err(BadNumber(ParseInt(v.s).error)) && r.error.cause.fn == "ParseInt"
    ensures v.Other? ==> r.Ok? == v.asJSONNumber.Some?
    ensures v.Other? && v.asJSONNumber.Some? ==> r == Ok(FloatToInt64(v.asJSONNumber.value))
  {
    match v
    case FloatV(f) => Ok(FloatToInt64(f))
    case IntV(i) => Ok(i)
    case Int64V(i) => Ok(i)
    case Str(s) =>
      if s == "" then Err(EmptyChatID)
      else (
        match ParseInt(s)
        case Ok(i) => Ok(i)
        case Err(e) => (
          match ParseFloat(s)
          case Ok(f) => Ok(FloatToInt64(f))
          case Err(_) => Err(BadNumber(e))))
    case Absent => Err(NilChatID)
    case Other(n) =>
      match n
      case Some(f) => Ok(FloatToInt64(f))
      case None => Err(UnsupportedType)
  }

  /** `ParseToInt64`: the lenient normalizer, which never fails and yields 0 for whatever it cannot use. */
  function ParseToInt64(v: Value): (r: Int64)
    ensures v.Absent? || v.Other? || v == Str("") ==> r == 0
    ensures v.Str? && ParseInt(v.s).Err? && ParseFloat(v.s).Err? ==> r == 0
  {
    match v
    case FloatV(f) => FloatToInt64(f)
    case IntV(i) => i
    case Int64V(i) => i
    case Str(s) =>
      if s == "" then 0
      else if ParseInt(s).Ok? then ParseInt(s).value
      else if ParseFloat(s).Ok? then FloatToInt64(ParseFloat(s).value)
      else 0
    case _ => 0
  }

  /**
   * The two normalizers agree wherever the strict one succeeds and the value is not of some other
   * type; where it fails on such a value, the lenient one yields 0. They differ only for other types,
   * which the strict one sends through their JSON encoding and the lenient one maps to 0.
   */
  lemma LenientAgreesWithStrict(v: Value)
    ensures !v.Other? ==> ParseToInt64(v) == (if ParseChatID(v).Ok? then ParseChatID(v).value else 0)
    ensures v.Other? ==> ParseToInt64(v) == 0
  {
  }

  /** A base-10 integer string in `int64` range normalizes to exactly its value, strictly and leniently. */
  lemma DecimalStringNormalizes(s: string)
    requires IsDecimalInteger(s) && InInt64(DecimalValue(s))
    ensures ParseChatID(Str(s)) == Ok(DecimalValue(s))
    ensures ParseToInt64(Str(s)) == DecimalValue(s)
  {
    ParseIntMeaning(s);
  }

  /** The text of a plain decimal with a fractional part: a sign, integer digits, `.`, fraction digits. */
  function DecimalText(sign: string, intDigits: string, fracDigits: string): string {
    sign + intDigits + "." + fracDigits
  }

  function SignedValue(sign: string, intDigits: string): int
    requires AllDigits(intDigits)
  {
    if sign == "-" then -(DigitsValue(intDigits) as int) else DigitsValue(intDigits)
  }

  /** The float parser splits such a text at its `.`, after the integer digits. */
  lemma SplitDecimalText(sign: string, intDigits: string, fracDigits: string)
    requires sign == "" || sign == "+" || sign == "-"
    requires AllDigits(intDigits)
    ensures SplitDecimal(DecimalText(sign, intDigits, fracDigits)) == Decimal(sign == "-", intDigits, fracDigits)
    ensures !IsDecimalInteger(DecimalText(sign, intDigits, fracDigits))
  {
    var s := DecimalText(sign, intDigits, fracDigits);
    var body := intDigits + "." + fracDigits;
    assert Unsigned(s) == body;
    assert body[|intDigits|] == '.';
    assert '.' !in intDigits;
    assert body[..|intDigits|] == intDigits;
    var dot := Strings.IndexByte(body, '.');
    assert dot == |intDigits|;
    assert body[..dot] == intDigits;
    assert body[dot + 1..] == fracDigits;
  }

  /**
   * `ParseFloat` of a decimal text with a fractional part: a range error once its magnitude
   * reaches the float overflow bound, and its exact value below that.
   */
  lemma FractionTextAsFloat(sign: string, intDigits: string, fracDigits: string)
    requires sign == "" || sign == "+" || sign == "-"
    requires AllDigits(intDigits) && AllDigits(fracDigits) && |intDigits| + |fracDigits| > 0
    ensures var s := DecimalText(sign, intDigits, fracDigits);
      var d := Decimal(sign == "-", intDigits, fracDigits);
      ParseFloat(s) == if DecimalMagnitude(d) >= FloatOverflow as real then Err(NumError("ParseFloat", s, ErrRange))
                       else Ok(DecimalReal(d))
  {
    SplitDecimalText(sign, intDigits, fracDigits);
  }

  lemma QuotientBelowOne(a: nat, b: nat)
    requires a < b
    ensures 0.0 <= a as real / b as real < 1.0
  {
  }

  lemma TruncIntegerPlusFraction(n: nat, frac: real)
    requires 0.0 <= frac < 1.0
    ensures Trunc(n as real + frac) == n
    ensures Trunc(-(n as real + frac)) == -(n as int)
  {
  }

  /** The fraction of a plain decimal is below one, so truncation keeps the signed integer part. */
  lemma TruncDropsFraction(negative: bool, intDigits: string, fracDigits: string)
    requires IsPlainDecimal(Decimal(negative, intDigits, fracDigits))
    ensures Trunc(DecimalReal(Decimal(negative, intDigits, fracDigits))) ==
              if negative then -(DigitsValue(intDigits) as int) else DigitsValue(intDigits)
  {
    DigitsValueBound(fracDigits);
    QuotientBelowOne(DigitsValue(fracDigits), Pow10(|fracDigits|));
    TruncIntegerPlusFraction(DigitsValue(intDigits), DigitsValue(fracDigits) as real / Pow10(|fracDigits|) as real);
  }

  /**
   * A decimal with a fractional part, such as "12.7" or "-3.9", is not an integer, so both
   * normalizers fall back to the float parser and truncate it toward zero to its integer part.
   */
  lemma FractionTruncatesTowardZero(sign: string, intDigits: string, fracDigits: string)
    requires sign == "" || sign == "+" || sign == "-"
    requires AllDigits(intDigits) && AllDigits(fracDigits) && |intDigits| + |fracDigits| > 0
    requires InInt64(SignedValue(sign, intDigits))
    ensures ParseChatID(Str(DecimalText(sign, intDigits, fracDigits))) == Ok(SignedValue(sign, intDigits))
    ensures ParseToInt64(Str(DecimalText(sign, intDigits, fracDigits))) == SignedValue(sign, intDigits)
  {
    var s := DecimalText(sign, intDigits, fracDigits);
    var d := Decimal(sign == "-", intDigits, fracDigits);
    SplitDecimalText(sign, intDigits, fracDigits);
    ParseIntMeaning(s);
    assert ParseInt(s).Err?;
    TruncDropsFraction(sign == "-", intDigits, fracDigits);
    assert DecimalMagnitude(d) < FloatOverflow as real;
    assert ParseFloat(s) == Ok(DecimalReal(d));
    assert FloatToInt64(DecimalReal(d)) == SignedValue(sign, intDigits);
  }

  /**
   * A decimal integer too large in magnitude for a `float64`, such as a 1 followed by 309
   * zeros, is rejected by both parsers: the strict normalizer fails with `ParseInt`'s range
   * error and the lenient one yields 0.
   */
  lemma OverflowingIntegerIsRejected(s: string)
    requires IsDecimalInteger(s) && (DecimalValue(s) >= FloatOverflow || DecimalValue(s) <= -FloatOverflow)
    ensures ParseChatID(Str(s)) == Err(BadNumber(NumError("ParseInt", s, ErrRange)))
    ensures ParseToInt64(Str(s)) == 0
  {
    ParseIntMeaning(s);
    IntegerTextAsFloat(s);
  }
}
