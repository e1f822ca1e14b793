/**
 * java.time.Instant at whole-second precision, and the arithmetic on it that
 * the reminder engine performs: plusSeconds, minusSeconds and plus/minus of an
 * amount of a ChronoUnit, each throwing where the JDK throws.
 */
module Instants {
  import opened Results
  import opened JavaLang

  /** Instant.MIN and Instant.MAX, in epoch seconds. */
  const MIN_SECOND: int := -31557014167219200
  const MAX_SECOND: int := 31556889864403199

  /** An instant on the UTC time line, in seconds since 1970-01-01T00:00:00Z. */
  type Instant = t: int | -31557014167219200 <= t <= 31556889864403199

  predicate InInstantRange(t: int) {
    MIN_SECOND <= t <= MAX_SECOND
  }

  /** The units the engine passes to Instant.minus(long, TemporalUnit). */
  datatype ChronoUnit = Seconds | Minutes | Hours | Days | Weeks

  /** Length in seconds of the units an Instant supports (Instant does not support Weeks). */
  function UnitSeconds(unit: ChronoUnit): Int64
    requires unit != Weeks
  {
    match unit
    case Seconds => 1
    case Minutes => 60
    case Hours => 3600
    case Days => 86400
  }

  /**
   * Instant.plusSeconds: addExact on the epoch second (ArithmeticException on
   * long overflow), then the range check of Instant.ofEpochSecond
   * (DateTimeException).
   */
  function PlusSeconds(t: Instant, s: Int64): (r: Result<Instant, JavaException>)
    ensures r.Success? <==> InInstantRange(t + s)
    ensures r.Success? ==> r.value == t + s
  {
    if s == 0 then Success(t)
    else if !InLong(t + s) then Failure(ArithmeticException)
    else if !InInstantRange(t + s) then Failure(DateTimeException)
    else Success(t + s)
  }

  /** Instant.minusSeconds, including its special case for Long.MIN_VALUE. */
  function MinusSeconds(t: Instant, s: Int64): (r: Result<Instant, JavaException>)
    ensures r.Success? <==> InInstantRange(t - s)
    ensures r.Success? ==> r.value == t - s
  {
    if s == LONG_MIN then
      // plusSeconds(Long.MAX_VALUE).plusSeconds(1): the first call always throws
      match PlusSeconds(t, LONG_MAX)
      case Failure(e) => Failure(e)
      case Success(_) => assert false; Failure(DateTimeException)
    else PlusSeconds(t, -s)
  }

  /**
   * Instant.plus(long, TemporalUnit): Weeks is not a supported unit and throws
   * UnsupportedTemporalTypeException whatever the amount; the other units
   * scale the amount to seconds with multiplyExact and add it.
   */
  function Plus(t: Instant, amount: Int64, unit: ChronoUnit): (r: Result<Instant, JavaException>)
    ensures unit == Weeks ==> r == Failure(UnsupportedTemporalTypeException)
    ensures unit != Weeks ==> (r.Success? <==> InInstantRange(t + amount * UnitSeconds(unit)))
    ensures r.Success? ==> unit != Weeks && r.value == t + amount * UnitSeconds(unit)
  {
    if unit == Weeks then Failure(UnsupportedTemporalTypeException)
    else
      match MultiplyExact(amount, UnitSeconds(unit))
      case Failure(e) => Failure(e)
      case Success(s) => PlusSeconds(t, s)
  }

  /** Instant.minus(long, TemporalUnit), which negates the amount and calls plus. */
  function Minus(t: Instant, amount: Int64, unit: ChronoUnit): (r: Result<Instant, JavaException>)
    ensures unit == Weeks ==> r == Failure(UnsupportedTemporalTypeException)
    ensures unit != Weeks ==> (r.Success? <==> InInstantRange(t - amount * UnitSeconds(unit)))
    ensures r.Success? ==> unit != Weeks && r.value == t - amount * UnitSeconds(unit)
  {
    if amount == LONG_MIN then
      // plus(Long.MAX_VALUE, unit).plus(1, unit): the first call always throws
      match Plus(t, LONG_MAX, unit)
      case Failure(e) => Failure(e)
      case Success(_) => assert false; Failure(DateTimeException)
    else Plus(t, -amount, unit)
  }
}
