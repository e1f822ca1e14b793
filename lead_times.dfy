/**
 * The fire instants of QuartzReminder's sendMailBefore* methods, and its two
 * day-offset helpers with the current time passed in as `now`.
 */
module LeadTimes {
  import opened Results
  import opened JavaLang
  import opened Instants

  /** The seven lead times of the Reminder interface. */
  datatype LeadTime =
    | FiveMinutes
    | TenMinutes
    | FifteenMinutes
    | ThirtyMinutes
    | OneHour
    | ThreeDays
    | OneWeek

  /** Each lead time in seconds: the reference the fire instants are checked against. */
  function LeadSeconds(lead: LeadTime): int {
    match lead
    case FiveMinutes => 300
    case TenMinutes => 600
    case FifteenMinutes => 900
    case ThirtyMinutes => 1800
    case OneHour => 3600
    case ThreeDays => 259200
    case OneWeek => 604800
  }

  /**
   * The instant each sendMailBefore* method hands to sendNotification,
   * computed with the same Instant call as the source. One week is computed
   * as seven days: the source's `minus(1, ChronoUnit.WEEKS)` always throws
   * (see FireInstantAsWritten).
   */
  function FireInstant(lead: LeadTime, date: Instant): (r: Result<Instant, JavaException>)
    ensures r.Success? <==> InInstantRange(date - LeadSeconds(lead))
    ensures r.Success? ==> r.value == date - LeadSeconds(lead)
    ensures r.Failure? ==> r.error == DateTimeException
  {
    match lead
    case FiveMinutes => MinusSeconds(date, 5 * 60)
    case TenMinutes => Minus(date, 10, Minutes)
    case FifteenMinutes => Minus(date, 15, Minutes)
    case ThirtyMinutes => Minus(date, 30, Minutes)
    case OneHour => Minus(date, 1, Hours)
    case ThreeDays => Minus(date, 3, Days)
    case OneWeek => Minus(date, 7, Days)
  }

  /** The fire instants exactly as the source computes them: one week as `minus(1, WEEKS)`. */
  function FireInstantAsWritten(lead: LeadTime, date: Instant): (r: Result<Instant, JavaException>)
    ensures lead != OneWeek ==> r == FireInstant(lead, date)
  {
    if lead == OneWeek then Minus(date, 1, Weeks) else FireInstant(lead, date)
  }

  /** As written, sendMailBefore1Week throws for every event, before anything is scheduled. */
  lemma OneWeekAsWrittenAlwaysThrows(date: Instant)
    ensures FireInstantAsWritten(OneWeek, date) == Failure(UnsupportedTemporalTypeException)
    ensures FireInstant(OneWeek, date).Success? <==> InInstantRange(date - 604800)
  {
  }

  /**
   * For an event date at least a week after Instant.MIN every reminder is
   * computed, and the reminders fire in the order one week, three days, one
   * hour, thirty, fifteen, ten, five minutes, then the event itself.
   */
  lemma FireInstantsOrdered(date: Instant)
    requires InInstantRange(date - 604800)
    ensures forall lead :: FireInstant(lead, date).Success?
    ensures FireInstant(OneWeek, date).value < FireInstant(ThreeDays, date).value
    ensures FireInstant(ThreeDays, date).value < FireInstant(OneHour, date).value
    ensures FireInstant(OneHour, date).value < FireInstant(ThirtyMinutes, date).value
    ensures FireInstant(ThirtyMinutes, date).value < FireInstant(FifteenMinutes, date).value
    ensures FireInstant(FifteenMinutes, date).value < FireInstant(TenMinutes, date).value
    ensures FireInstant(TenMinutes, date).value < FireInstant(FiveMinutes, date).value
    ensures FireInstant(FiveMinutes, date).value < date
  {
    forall lead: LeadTime
      ensures FireInstant(lead, date).Success?
    {
      assert 0 < LeadSeconds(lead) <= 604800;
    }
  }

  /** getInstantDaysOffsetFromNow: now plus Duration.ofDays(offsetInDays). */
  function DaysOffsetFromNow(now: Instant, offsetInDays: Int64): (r: Result<Instant, JavaException>)
    ensures r.Success? <==> InInstantRange(now + offsetInDays * 86400)
    ensures r.Success? ==> r.value == now + offsetInDays * 86400
  {
    match MultiplyExact(offsetInDays, 86400)
    case Failure(e) => Failure(e)
    case Success(seconds) => Plus(now, seconds, Seconds)
  }

  /** getInstantDaysOffsetBeforeNow: now minus Duration.ofDays(offsetInDays). */
  function DaysOffsetBeforeNow(now: Instant, offsetInDays: Int64): (r: Result<Instant, JavaException>)
    ensures r.Success? <==> InInstantRange(now - offsetInDays * 86400)
    ensures r.Success? ==> r.value == now - offsetInDays * 86400
  {
    match MultiplyExact(offsetInDays, 86400)
    case Failure(e) => Failure(e)
    case Success(seconds) => Minus(now, seconds, Seconds)
  }

  /** Going forward a number of days and back the same number returns to the start. */
  lemma DaysOffsetRoundTrip(now: Instant, offsetInDays: Int64)
    requires DaysOffsetFromNow(now, offsetInDays).Success?
    ensures DaysOffsetBeforeNow(DaysOffsetFromNow(now, offsetInDays).value, offsetInDays) == Success(now)
  {
  }
}
