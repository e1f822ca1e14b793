/**
 * The pieces of the Java platform that the reminder engine relies on and whose
 * behaviour is observable in its results: 32- and 64-bit integer ranges, exact
 * long arithmetic, Integer.toString and Integer.parseInt, and the exceptions
 * the engine can throw.
 */
module JavaLang {
  import opened Results

  const INT_MIN: int := -0x8000_0000
  const INT_MAX: int := 0x7fff_ffff
  const LONG_MIN: int := -0x8000_0000_0000_0000
  const LONG_MAX: int := 0x7fff_ffff_ffff_ffff

  /** Java `int`. */
  type Int32 = n: int | -0x8000_0000 <= n <= 0x7fff_ffff
  /** Java `long`. */
  type Int64 = n: int | -0x8000_0000_0000_0000 <= n <= 0x7fff_ffff_ffff_ffff

  /** The exceptions that the modelled code throws or lets escape. */
  datatype JavaException =
    | ArithmeticException
    | DateTimeException
    | UnsupportedTemporalTypeException
    | IllegalArgumentException
    | ClassCastException
    | NullPointerException
    | InputMismatchException(message: string)
    | ObjectAlreadyExistsException
    | RuntimeException
    | PlainException(message: string)

  predicate InLong(n: int) {
    LONG_MIN <= n <= LONG_MAX
  }

  /** Two's-complement wrap-around of an `int` computation such as `count++`. */
  function Wrap32(n: int): (r: Int32)
    ensures INT_MIN <= n <= INT_MAX ==> r == n
    ensures (n - r) % 0x1_0000_0000 == 0
  {
    (n - INT_MIN) % 0x1_0000_0000 + INT_MIN
  }

  /** Math.multiplyExact(long, long). */
  function MultiplyExact(a: Int64, b: Int64): Result<Int64, JavaException> {
    if InLong(a * b) then Success(a * b) else Failure(ArithmeticException)
  }

  predicate IsDigit(c: char) {
    '0' <= c <= '9'
  }

  predicate AllDigits(s: string) {
    forall i :: 0 <= i < |s| ==> IsDigit(s[i])
  }

  function DigitChar(d: int): (c: char)
    requires 0 <= d < 10
  {
    (48 + d) as char
  }

  /** The decimal digits of a natural number, most significant first, no leading zeros. */
  function Digits(n: nat): (s: string)
    ensures |s| >= 1 && AllDigits(s)
    ensures s[0] == '0' ==> n == 0
  {
    if n < 10 then [DigitChar(n)] else Digits(n / 10) + [DigitChar(n % 10)]
  }

  /** The number a string of decimal digits denotes. */
  function DigitsValue(s: string): nat
    requires AllDigits(s)
  {
    if |s| == 0 then 0 else DigitsValue(s[..|s| - 1]) * 10 + (s[|s| - 1] as int - 48)
  }

  /** Integer.toString(int). */
  function DecimalString(n: Int32): string {
    if n < 0 then "-" + Digits(-(n as int)) else Digits(n)
  }

  /**
   * Integer.parseInt(String) on ASCII text: an optional sign, at least one
   * digit, and a value inside the `int` range; None where Java throws
   * NumberFormatException.
   */
  function ParseInt(s: string): (r: Option<Int32>)
    ensures r.Some? ==> |s| >= 1 && (s[0] == '-' || s[0] == '+' || IsDigit(s[0]))
    ensures r.Some? && (s[0] == '-' || s[0] == '+') ==> |s| >= 2 && AllDigits(s[1..])
    ensures r.Some? && s[0] != '-' && s[0] != '+' ==> AllDigits(s) && r.value == DigitsValue(s)
    ensures r.Some? && s[0] == '+' ==> r.value == DigitsValue(s[1..])
    ensures r.Some? && s[0] == '-' ==> r.value as int == -(DigitsValue(s[1..]) as int)
    ensures AllDigits(s) && 1 <= |s| && DigitsValue(s) <= INT_MAX ==> r == Some(DigitsValue(s))
    ensures (|s| >= 2 && (s[0] == '-' || s[0] == '+') && AllDigits(s[1..])
             && INT_MIN <= (if s[0] == '-' then -(DigitsValue(s[1..]) as int) else DigitsValue(s[1..]) as int) <= INT_MAX)
            ==> r.Some?
  {
    if |s| == 0 then None
    else if s[0] == '-' || s[0] == '+' then
      var rest := s[1..];
      if |rest| == 0 || !AllDigits(rest) then None
      else
        var v: int := if s[0] == '-' then -(DigitsValue(rest) as int) else DigitsValue(rest);
        if INT_MIN <= v <= INT_MAX then Some(v) else None
    else if !AllDigits(s) then None
    else if DigitsValue(s) <= INT_MAX then Some(DigitsValue(s))
    else None
  }

  lemma {:induction false} DigitsRoundTrip(n: nat)
    ensures DigitsValue(Digits(n)) == n
  {
    var s := Digits(n);
    if n < 10 {
      assert s[..|s| - 1] == [];
    } else {
      assert s[..|s| - 1] == Digits(n / 10);
      DigitsRoundTrip(n / 10);
    }
  }

  /** Integer.parseInt reads back exactly the int Integer.toString wrote. */
  lemma DecimalRoundTrip(n: Int32)
    ensures ParseInt(DecimalString(n)) == Some(n)
  {
    if n < 0 {
      var digits := Digits(-(n as int));
      var s := "-" + digits;
      assert s[0] == '-' && s[1..] == digits;
      DigitsRoundTrip(-(n as int));
      assert DigitsValue(s[1..]) == -(n as int);
    } else {
      DigitsRoundTrip(n);
      assert AllDigits(Digits(n)) && DigitsValue(Digits(n)) == n as int;
    }
  }

  /** Distinct `int` values have distinct decimal strings. */
  lemma DecimalStringInjective(a: Int32, b: Int32)
    requires a != b
    ensures DecimalString(a) != DecimalString(b)
  {
    DecimalRoundTrip(a);
    DecimalRoundTrip(b);
  }
}
