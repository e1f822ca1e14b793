/**
 * The cron value that QuartzReminder.CronBuilder builds: a record of one
 * field expression per cron field, as the cron-utils builder receives them.
 * How the library renders the record as a string and when that string fires
 * are not part of this model. ReadDateTime reads the record back by a
 * convention of this model, taking the day of the month from the upper end of
 * the `between(L, day)` range; it says nothing about when the cron library
 * fires such a record.
 */
module Cron {
  import opened Results
  import opened JavaLang
  import opened Calendar
  import opened Instants

  datatype SpecialChar = L

  datatype FieldValue = IntegerValue(n: int) | SpecialValue(c: SpecialChar)

  /** FieldExpressionFactory.on, between and questionMark. */
  datatype FieldExpression =
    | On(value: FieldValue)
    | Between(from: FieldValue, to: FieldValue)
    | QuestionMark

  datatype CronRecord = CronRecord(
    year: FieldExpression,
    dayOfMonth: FieldExpression,
    month: FieldExpression,
    dayOfWeek: FieldExpression,
    hour: FieldExpression,
    minute: FieldExpression,
    second: FieldExpression)

  /** The integer an `on(n)` expression holds, if it is one. */
  function OnValue(e: FieldExpression): Option<int> {
    if e.On? && e.value.IntegerValue? then Some(e.value.n) else None
  }

  /**
   * The date-time a record holds, read with this model's convention: year,
   * month, hour, minute and second from their `on` expressions, the day of
   * the month from the upper end of the day-of-month range; None unless every
   * field is of that shape and the fields name a real calendar second (a day
   * 31 in a 30-day month does not).
   */
  function ReadDateTime(c: CronRecord): Option<DateTime> {
    var y, mo, h, mi, s := OnValue(c.year), OnValue(c.month), OnValue(c.hour), OnValue(c.minute), OnValue(c.second);
    if y.Some? && mo.Some? && h.Some? && mi.Some? && s.Some?
      && c.dayOfMonth.Between? && c.dayOfMonth.to.IntegerValue?
    then
      var dt := DateTime(y.value, mo.value, c.dayOfMonth.to.n, h.value, mi.value, s.value);
      if Valid(dt) then Some(dt) else None
    else None
  }

  /** The epoch second of the date-time ReadDateTime reads, if it reads one. */
  function ReadInstant(c: CronRecord): Option<int> {
    match ReadDateTime(c)
    case Some(dt) => Some(ToEpochSecond(dt))
    case None => None
  }

  /**
   * The epoch seconds of LocalDateTime.MIN (-999999999-01-01T00:00:00) and
   * of the last whole second of LocalDateTime.MAX (+999999999-12-31T23:59:59):
   * Instant.atZone throws DateTimeException outside them, where Instant's own
   * range, the years -1000000000 and 1000000000, reaches further.
   */
  const LOCAL_MIN_SECOND: int := -31557014135596800
  const LOCAL_MAX_SECOND: int := 31556889832780799

  predicate InLocalRange(t: int) {
    LOCAL_MIN_SECOND <= t <= LOCAL_MAX_SECOND
  }

  /**
   * QuartzReminder.CronBuilder: decompose the instant in UTC, which throws
   * DateTimeException outside LocalDateTime's range, and put every field in
   * the record, day-of-month written as between(L, day) and day-of-week as `?`.
   */
  function CronBuilder(startTime: Instant): (r: Result<CronRecord, JavaException>)
    ensures r.Success? <==> InLocalRange(startTime)
    ensures r.Failure? ==> r.error == DateTimeException
    ensures r.Success? ==>
      && r.value.dayOfWeek == QuestionMark
      && r.value.dayOfMonth.Between? && r.value.dayOfMonth.from == SpecialValue(L)
      && ReadDateTime(r.value) == Some(FromEpochSecond(startTime))
      && ReadInstant(r.value) == Some(startTime as int)
  {
    if !InLocalRange(startTime) then Failure(DateTimeException)
    else
      var reminder := FromEpochSecond(startTime);
      Success(CronRecord(
        year := On(IntegerValue(reminder.year)),
        dayOfMonth := Between(SpecialValue(L), IntegerValue(reminder.day)),
        month := On(IntegerValue(reminder.month)),
        dayOfWeek := QuestionMark,
        hour := On(IntegerValue(reminder.hour)),
        minute := On(IntegerValue(reminder.minute)),
        second := On(IntegerValue(reminder.second))))
  }

  /** Every valid UTC date-time in LocalDateTime's range is what CronBuilder records for the second it denotes. */
  lemma CronBuilderReadBack(dt: DateTime)
    requires Valid(dt) && InLocalRange(ToEpochSecond(dt))
    ensures CronBuilder(ToEpochSecond(dt)).Success?
    ensures ReadDateTime(CronBuilder(ToEpochSecond(dt)).value) == Some(dt)
  {
    FromToEpochSecond(dt);
  }

  /** Different instants give different cron records. */
  lemma CronBuilderInjective(t1: Instant, t2: Instant)
    requires CronBuilder(t1).Success? && CronBuilder(t2).Success?
    requires CronBuilder(t1).value == CronBuilder(t2).value
    ensures t1 == t2
  {
    assert ReadInstant(CronBuilder(t1).value) == Some(t1 as int);
  }
}
