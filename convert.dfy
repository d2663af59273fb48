/** The `FromStr` conversions the loaders use, as functions `string -> Result<T, string>`
    whose error is the parser error's `to_string()`. */
module Convert {
  import opened Wrappers

  const U64_LIMIT: int := 0x1_0000_0000_0000_0000

  /** Rust's `u64`. */
  type u64 = n: int | 0 <= n < U64_LIMIT

  /** The messages of `ParseIntError`'s kinds `Empty`, `InvalidDigit` and `PosOverflow`. */
  const EMPTY_MSG := "cannot parse integer from empty string"
  const INVALID_DIGIT_MSG := "invalid digit found in string"
  const OVERFLOW_MSG := "number too large to fit in target type"

  /** `String::from_str`, whose error type is `Infallible`. */
  function ParseString(s: string): (r: Result<string, string>)
    ensures r.Ok? && r.value == s
  {
    Ok(s)
  }

  predicate IsDigit(c: char) {
    '0' <= c <= '9'
  }

  predicate AllDigits(s: string) {
    forall i :: 0 <= i < |s| ==> IsDigit(s[i])
  }

  function DigitValue(c: char): nat
    requires IsDigit(c)
  {
    c as int - '0' as int
  }

  /** The number denoted by the digits of `ds` written after the digits of `acc`
      (Horner's rule, most significant digit first). */
  function ValueFrom(acc: nat, ds: string): (v: nat)
    requires AllDigits(ds)
    ensures v >= acc
    decreases |ds|
  {
    if ds == [] then acc else ValueFrom(acc * 10 + DigitValue(ds[0]), ds[1..])
  }

  /** The number a string of decimal digits denotes. */
  function DecimalValue(ds: string): nat
    requires AllDigits(ds)
  {
    ValueFrom(0, ds)
  }

  /** The digits `from_str` reads: a leading `+` is skipped. */
  function Unsigned(s: string): string {
    if s != [] && s[0] == '+' then s[1..] else s
  }

  /** The texts `u64::from_str` accepts: an optional `+`, then at least one decimal digit,
      denoting a number below 2^64. */
  predicate IsU64Text(s: string) {
    var ds := Unsigned(s);
    ds != [] && AllDigits(ds) && DecimalValue(ds) < U64_LIMIT
  }

  /** The digit loop of `u64::from_str_radix` with radix 10: digits are read left to right
      into `acc`; a non-digit stops the scan with `InvalidDigit`, and a step whose value
      would reach 2^64 stops it with `PosOverflow`, whichever comes first. */
  function ScanDigits(ds: string, acc: nat): (r: Result<u64, string>)
    requires acc < U64_LIMIT
    ensures r.Ok? ==> AllDigits(ds) && r.value == ValueFrom(acc, ds)
    ensures AllDigits(ds) && ValueFrom(acc, ds) < U64_LIMIT ==> r.Ok?
    ensures AllDigits(ds) && r.Err? ==> r.error == OVERFLOW_MSG
    ensures ds != [] && !IsDigit(ds[0]) ==> r == Err(INVALID_DIGIT_MSG)
    decreases |ds|
  {
    if ds == [] then Ok(acc)
    else if !IsDigit(ds[0]) then Err(INVALID_DIGIT_MSG)
    else
      var next := acc * 10 + DigitValue(ds[0]);
      if next >= U64_LIMIT then Err(OVERFLOW_MSG) else ScanDigits(ds[1..], next)
  }

  /** `u64::from_str`. */
  function ParseU64(s: string): (r: Result<u64, string>)
    ensures r.Ok? <==> IsU64Text(s)
    ensures r.Ok? ==> r.value == DecimalValue(Unsigned(s))
    ensures s == [] ==> r == Err(EMPTY_MSG)
    ensures Unsigned(s) != [] && AllDigits(Unsigned(s)) && !IsU64Text(s) ==> r == Err(OVERFLOW_MSG)
  {
    if s == [] then Err(EMPTY_MSG)
    else if |s| == 1 && (s[0] == '+' || s[0] == '-') then Err(INVALID_DIGIT_MSG)
    else ScanDigits(Unsigned(s), 0)
  }

  /** The inputs the loaders' examples use, and the three kinds of failure. */
  lemma ParseU64Examples()
    ensures ParseU64("42") == Ok(42)
    ensures ParseU64("7") == Ok(7)
    ensures ParseU64("+7") == Ok(7)
    ensures ParseU64("") == Err(EMPTY_MSG)
    ensures ParseU64("-7") == Err(INVALID_DIGIT_MSG)
    ensures ParseU64("7x") == Err(INVALID_DIGIT_MSG)
  {
    assert Unsigned("-7") == "-7";
    assert ScanDigits("7x", 0) == ScanDigits("x", 7);
  }
}
