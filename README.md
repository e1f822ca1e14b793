# Time-Reminder reminder engine, in Dafny

This project models the reminder engine of Time-Reminder: `QuartzReminder`, which turns
"remind me N before this event" into a Quartz job and trigger, and `EventReminderJob`,
the job body that mails every participant of the event when the trigger fires.

- **Instants** are whole epoch seconds inside `Instant.MIN`..`Instant.MAX`. `plusSeconds`,
  `minusSeconds` and `plus`/`minus(long, ChronoUnit)` are modelled with the JDK's own
  exceptions: long overflow, the range check, and `WEEKS` being unsupported by `Instant`
  (module `Instants`).
- **The UTC calendar** used by `CronBuilder` is the proleptic Gregorian calendar. It is built
  from the first day of each year counted from 1970 (module `Calendar`). Splitting an epoch
  second into fields and recombining them is proved to be a bijection on valid date-times.
- **The cron value** is a plain record of field expressions (module `Cron`).
  `CronBuilder(instant)` is proved to record exactly the UTC fields of its instant, or to
  throw `DateTimeException` outside LocalDateTime's range.
- **The collaborators** are modelled as classes:
  - `DataRepository` holds fixed event and user maps and keeps a log of the lookups made.
  - `MailHelper` keeps an outbox.
  - `JobDataMap` is a mutable map. Its getters mirror Java's casts and exceptions.
- **`EventReminderJob.Execute`** runs the job step by step. It is proved equal to the
  specification function `Fire`, whose consequences are stated as lemmas.
- **`QuartzReminder`** holds the scheduler's jobs as a map from job name to job and trigger.
  Every `sendMailBefore*` method is proved to compute its fire instant exactly, and then
  either to add exactly one job named by the event id, or to throw and change nothing.
- **The two tests** of `ReminderTest.java`, alone and run one after the other, are written
  as methods whose contracts follow from the contracts above.

Some behaviour of the code that a reader of its names and comments might not expect, all of
it modelled as written:

- `COUNT` is stored as 1 and incremented before the event is looked up, so a run whose event
  is missing still counts.
- A participant whose user lookup returns null ends the run with `NullPointerException`,
  after the mails to the participants before it; the others get no mail.
- A run counts in a copy of its job data: Quartz hands each run a copy, and
  `EventReminderJob` does not ask for its data to be stored back, so the stored `COUNT`
  stays 1 (`Reminder.ReminderScenario`).
- Jobs are named by the event id alone, so a second reminder for the same event, with
  another lead time, is refused with `ObjectAlreadyExistsException`
  (`Reminder.SecondReminderRefused`).
- Every `QuartzReminder` of a process shares one scheduler, so the reminder test and the
  spam test, run in one process, collide on job "9" (`Reminder.TestsInOneProcess`).
- `sendMail` writes the event's day of the month as `L-day`, an offset back from the last
  day of the month, and Quartz refuses offsets above 30: for an event on the 31st the cron
  parser throws, the exception is logged, and no job is registered
  (`Reminder.CronTriggerRefusesThirtyFirst`, `Reminder.QuartzReminder.SendMail`).

## Model

| member | source | states |
|---|---|---|
| JavaLang.Wrap32 | EventReminderJob.java:43-45 | `count++` on a Java `int`: the identity inside the int range, and otherwise congruent to the true sum modulo 2^32 |
| JavaLang.DecimalRoundTrip | QuartzReminder.java:168 | `Integer.parseInt` reads back exactly the id that `Integer.toString` wrote as the job name, negative ids included |
| JavaLang.DigitsRoundTrip | QuartzReminder.java:168 | the decimal digits of a natural number denote that number |
| JavaLang.DecimalStringInjective | QuartzReminder.java:168 | different event ids give different job names |
| JavaLang.ParseInt | EventReminderJob.java:40 | `Integer.parseInt` as `getInt` applies it to a string: succeeds only on an optional sign followed by decimal digits, then returns their value with the sign; every digit string, with or without a leading `-` or `+`, whose signed value fits an `int` parses |
| Instants.PlusSeconds | QuartzReminder.java:270 | succeeds exactly when the sum lies in the Instant range, and then returns the sum |
| Instants.MinusSeconds | QuartzReminder.java:365 | succeeds exactly when the difference lies in the Instant range (including the `Long.MIN_VALUE` path), and then returns the difference |
| Instants.Plus | QuartzReminder.java:270 | `WEEKS` always throws `UnsupportedTemporalTypeException`; any other unit succeeds exactly when t + amount·unit is in range, and then returns it |
| Instants.Minus | QuartzReminder.java:374 | `WEEKS` always throws `UnsupportedTemporalTypeException`; any other unit succeeds exactly when t − amount·unit is in range, and then returns it |
| Calendar.YearAndDay | QuartzReminder.java:340-341 | the year containing an epoch day, and a day-of-year inside that year's length that lands back on the epoch day |
| Calendar.MonthFrom | QuartzReminder.java:342 | the month whose days contain the day-of-year |
| Calendar.FromEpochSecond | QuartzReminder.java:340-348 | the UTC fields of an instant form a valid Gregorian date-time (month 1..12, day within the month with leap years, hour 0..23, minute and second 0..59), and recombining them gives back the instant |
| Calendar.ToEpochSecondInjective | QuartzReminder.java:340-348 | two valid date-times that denote the same second are equal |
| Calendar.FromToEpochSecond | QuartzReminder.java:340-348 | decomposing the second of a valid date-time gives back that date-time |
| Cron.CronBuilder | QuartzReminder.java:338-359 | fails with `DateTimeException` outside LocalDateTime's range (`atZone(UTC)`); inside it builds a record, in which day-of-week is `?`, day-of-month is `between(L, day)`, and the record's fields, read with the upper bound of the day range, give the UTC date-time of the instant and so its epoch second |
| Cron.CronBuilderReadBack | QuartzReminder.java:351-357 | every valid date-time in LocalDateTime's range is what CronBuilder records for the second it denotes |
| Cron.CronBuilderInjective | QuartzReminder.java:351-357 | different instants give different cron records |
| Entities.DataRepository.FindEventByID | EventReminderJob.java:51 | the event with that id or none (null), with the lookup appended to the call log |
| Entities.DataRepository.FindUserByName | EventReminderJob.java:55 | the user with that name or none (null), with the lookup appended to the call log |
| Entities.MailHelper.SendMail | EventReminderJob.java:56 | appends exactly one mail (subject, body, recipients) to the outbox |
| JobData.JobDataMap.Put | EventReminderJob.java:45 | the entry for the key is replaced and every other entry is kept |
| JobData.JobDataMap.Copy | EventReminderJob.java:34 | the map a run is handed: a new map with the same entries |
| JobData.AsRepository | EventReminderJob.java:36 | the cast succeeds exactly for null or a repository, and returns what is stored |
| JobData.AsString | EventReminderJob.java:38 | `getString` succeeds exactly for null or a string, and returns what is stored |
| JobData.AsInt | EventReminderJob.java:40 | `getInt` returns a stored Integer as it is; a stored String succeeds exactly when `Integer.parseInt` accepts it, with the parsed value; every failure (null, a string that does not parse, any other value) is `ClassCastException` |
| JobData.AsNumberInt | EventReminderJob.java:50 | `((Number) o).intValue()` succeeds exactly on an Integer and returns its value, the id `findEventByID` receives; null gives `NullPointerException` and any other value `ClassCastException` |
| ReminderJob.FirstUnresolved | EventReminderJob.java:53-56 | the first participant whose user lookup returns null: every earlier name resolves, and this one does not |
| ReminderJob.Deliver | EventReminderJob.java:51-57 | a missing event: one lookup, no mail, `InputMismatchException("the eid does not exist")`. A found event: one lookup per name in list order, mail i is the reminder to participant i, success exactly when every name resolves, and otherwise `NullPointerException` at the first unresolved name |
| ReminderJob.AllResolvedDelivery | EventReminderJob.java:53-57 | when every participant resolves: the event lookup, one lookup per name, one mail per participant, and no exception |
| ReminderJob.Fire | EventReminderJob.java:34-57 | only COUNT can change in the data map; a null repository means no lookups and no mails; at most one mail per lookup; on success the flag is "object changed" and the repository field is set |
| ReminderJob.FireDelivers | EventReminderJob.java:36-57 | once the repository, the event name and COUNT have been read, the run writes COUNT + 1, sets the flag, and then does exactly what Deliver says for the stored event id |
| ReminderJob.CountIncremented | EventReminderJob.java:40-46 | when COUNT can be read, it is written back as COUNT + 1 (int wrap-around) and the flag is set, whether or not the event lookup then fails; otherwise the run fails with the data map, the flag and the call log as they were and no mail (the repository field may already have been set, at EventReminderJob.java:36) |
| ReminderJob.MissingEventSendsNothing | EventReminderJob.java:51-52 | an unknown event id ends the run with `InputMismatchException` after exactly one lookup and no mail |
| ReminderJob.OneMailPerParticipant | EventReminderJob.java:53-57 | when every participant resolves: one event lookup, then one user lookup per name in order, and exactly one mail per participant, in order, with subject "reminder", body "Upcoming event! " + username + eventName + "excited?" and the user's email as the only recipient |
| ReminderJob.UnresolvedParticipantStops | EventReminderJob.java:53-56 | an unresolved participant k ends the run with `NullPointerException`; the mails sent are those to participants 0..k−1, and its own lookup is the last call |
| ReminderJob.EventReminderJob.constructor | EventReminderJob.java:27-29 | a new job has flag "new object" and no repository |
| ReminderJob.EventReminderJob.Execute | EventReminderJob.java:31-59 | the data map, the flag, the repository field, the repository's call log, the outbox and the exception become exactly what Fire specifies |
| ReminderJob.EventReminderJob.Remind | EventReminderJob.java:51-57 | the event lookup and the loop do exactly what Deliver specifies |
| ReminderJob.EventReminderJob.NotifyParticipants | EventReminderJob.java:53-57 | the loop looks up and mails the participants before the first unresolved one, plus the lookup of that one, and then throws `NullPointerException` |
| LeadTimes.FireInstant | QuartzReminder.java:365-470 | the fire instant is exactly event.date minus 300, 600, 900, 1800, 3600, 259200 or 604800 seconds; it is computed exactly when that is in range, and otherwise `DateTimeException` |
| LeadTimes.FireInstantAsWritten | QuartzReminder.java:470 | agrees with FireInstant for every lead time but one week |
| LeadTimes.OneWeekAsWrittenAlwaysThrows | QuartzReminder.java:467-471 | `minus(1, ChronoUnit.WEEKS)` throws `UnsupportedTemporalTypeException` for every event date |
| LeadTimes.FireInstantsOrdered | QuartzReminder.java:365-470 | for a date at least a week after Instant.MIN: 1 week < 3 days < 1 hour < 30 min < 15 min < 10 min < 5 min < event date |
| LeadTimes.DaysOffsetFromNow | QuartzReminder.java:269-271 | succeeds exactly when now + days·86400 is in range, and then returns it |
| LeadTimes.DaysOffsetBeforeNow | QuartzReminder.java:280-282 | succeeds exactly when now − days·86400 is in range, and then returns it |
| LeadTimes.DaysOffsetRoundTrip | QuartzReminder.java:269-282 | going forward a number of days and back again returns to now |
| Formatting.ReplaceA | QuartzReminder.java:322 | no `a` remains, each `a` grows by five characters, and a pattern with no `a` is unchanged |
| Formatting.ReplaceASingle | QuartzReminder.java:322 | a single `a` becomes `'NOON'` and any other character stays as it is |
| Formatting.ReplaceAAppend | QuartzReminder.java:322 | the replacement distributes over concatenation |
| Formatting.ReplaceAIdempotent | QuartzReminder.java:322 | replacing twice is replacing once |
| Formatting.ProcessedPattern | QuartzReminder.java:320-323 | at 12:00 the pattern is the `a`-to-`'NOON'` replacement of the input (which ReplaceASingle and ReplaceAAppend pin character by character); at any other time it is unchanged |
| Formatting.FormatInstantAsWritten | QuartzReminder.java:315-326 | blank (the empty string) exactly when an argument is null; otherwise the current zone time is formatted, with the `a`-to-`'NOON'` replacement of the pattern when that current time is 12:00 and the pattern unchanged at any other time |
| Formatting.FormatInstant | QuartzReminder.java:304-326 | blank exactly when an argument is null; otherwise the local date-time of the instant is formatted, with the `a`-to-`'NOON'` replacement of the pattern when that time is 12:00 and the pattern unchanged at any other time |
| Formatting.NoonOfInstantIgnoredAsWritten | QuartzReminder.java:319-323 | for an instant at local noon formatted while the clock is not at noon, the code as written leaves `a` in the pattern, while the documented behaviour replaces it |
| Reminder.BuildJobTrigger | QuartzReminder.java:187-195 | the trigger has the job's name, group "eventID?????", start time `startAt` and misfire policy fire-now; it fails with `IllegalArgumentException` exactly when `Date.from` cannot represent the instant |
| Reminder.BuildCronTrigger | QuartzReminder.java:212-219 | `RuntimeException` exactly when the record's day-of-month is `L-n` with n above 30, which Quartz's cron parser refuses; otherwise the trigger has the job's name, group "group2" and the cron schedule |
| Reminder.CronTriggerRefusesThirtyFirst | QuartzReminder.java:338-359 | for an instant in LocalDateTime's range, the cron trigger is refused exactly when the instant falls on the 31st of its month in UTC |
| Reminder.RegisteredJobFires | QuartzReminder.java:161-165 | the data a job is registered with is what the first firing consumes: COUNT becomes 2, the repository and event id are read back, and the rest is what Deliver says for that event |
| Reminder.JobNamesDistinct | QuartzReminder.java:160-168 | in a scheduler whose jobs are stored under their own names, the jobs of two different events are different JobDetails with different trigger names |
| Reminder.QuartzReminder.constructor | QuartzReminder.java:70-77 | a new reminder holds the repository and works on the scheduler it is given, with the jobs that scheduler already holds |
| Reminder.QuartzReminder.Create | QuartzReminder.java:70-74 | a null repository is rejected with `Exception("no reop")`; otherwise a fresh reminder on the process's scheduler, whose jobs are unchanged |
| Reminder.QuartzReminder.BuildJobDetail | QuartzReminder.java:160-174 | a durable, non-recovering job named by the decimal id, over a fresh data map holding exactly COUNT=1, EVENTNAME="vc123", REPO=the repository and eventID=id |
| Reminder.QuartzReminder.ScheduleJob | QuartzReminder.java:101 | a new name adds exactly that job; an existing name is refused with `ObjectAlreadyExistsException` and changes nothing |
| Reminder.QuartzReminder.SendNotification | QuartzReminder.java:94-102 | either exactly one new job for the event, named by its id, with the initial job data and a one-shot trigger at `startAt`, and nothing else changed; or the exception (`IllegalArgumentException` first, then `ObjectAlreadyExistsException`) and no change |
| Reminder.QuartzReminder.SendMailBefore | QuartzReminder.java:361-472 | the shared body of the seven lead-time methods: the fire instant's exception and no change, or what SendNotification does at that instant |
| Reminder.QuartzReminder.SendMailBefore5Min | QuartzReminder.java:361-368 | registers the event's job at exactly date − 300 s as SendNotification does, or throws and changes nothing |
| Reminder.QuartzReminder.SendMailBefore10Min | QuartzReminder.java:370-376 | the same, at date − 600 s |
| Reminder.QuartzReminder.SendMailBefore15Min | QuartzReminder.java:378-384 | the same, at date − 900 s |
| Reminder.QuartzReminder.SendMailBefore30Min | QuartzReminder.java:386-392 | the same, at date − 1800 s |
| Reminder.QuartzReminder.SendMailBefore1Hour | QuartzReminder.java:394-400 | the same, at date − 3600 s |
| Reminder.QuartzReminder.SendMailBefore3Days | QuartzReminder.java:458-464 | the same, at date − 259200 s |
| Reminder.QuartzReminder.SendMailBefore1Week | QuartzReminder.java:466-472 | the same, at date − 604800 s (the corrected computation) |
| Reminder.QuartzReminder.SendMail | QuartzReminder.java:411-456 | one event lookup; a missing event is logged as `NullPointerException`, a date outside LocalDateTime's range as `DateTimeException`, a date on the 31st as the cron parser's `RuntimeException`, a duplicate job name as `ObjectAlreadyExistsException`, each leaving the jobs unchanged; for any other event one new job with the initial job data and a cron trigger built from the event's date |
| Reminder.ScheduleTestReminder | ReminderTest.java:45-58 | in the test's set-up, on an empty scheduler, a five-minute reminder for event 9 is accepted and leaves exactly job "9", carrying the initial job data |
| Reminder.RunTestJob | ReminderTest.java:48-55 | one run of that job, on a copy of its data, succeeds; it looks up event 9 and then name1, name2 and name3 once each, sends the three reminders, and its copy ends with COUNT 2 |
| Reminder.ReminderScenario | ReminderTest.java:79-85 | end to end: registration and firing both succeed, with exactly those four lookups and three mails, each with subject "reminder" and the one recipient timescheduler180@gmail.com; the run counts to 2 while the stored COUNT stays 1 |
| Reminder.SpamScenario | ReminderTest.java:88-98 | five-minute reminders for ids 0, 1, 2, … on a scheduler that already holds some jobs, in order, until the first id whose job is already there: every request before it is accepted, that one is refused with `ObjectAlreadyExistsException` and ends the test (the loop has no handler), and the scheduler ends with its old jobs plus those of the accepted ids; with none held, all ten are accepted |
| Reminder.SpamRequests | ReminderTest.java:93-96 | the test's loop, proved to produce SpamOutcomes: it stops at the first refused request and registers exactly the ids before it |
| Reminder.FirstHeld | ReminderTest.java:93-96 | the first id below 10 whose job the scheduler already holds, or 10: every id before it is free |
| Reminder.SpamOutcomesMeaning | ReminderTest.java:93-96 | the outcomes stop at the first held id: a request is accepted exactly when its job is not held yet, and at most the last one is refused |
| Reminder.SpamStopsAtHeldJob | ReminderTest.java:93-96 | with job "3" already held and "0".."2" free, the test makes exactly four requests: three accepted, the fourth refused, and none for ids 4..9 |
| Reminder.SpamRequest | ReminderTest.java:96-97 | one spam request is accepted exactly when its job name is new, is otherwise refused with `ObjectAlreadyExistsException`, and leaves that name registered |
| Reminder.TestsInOneProcess | ReminderTest.java:79-98 | the reminder test and then the spam test on one scheduler: requests 0..8 are accepted and request 9 is refused with `ObjectAlreadyExistsException` |
| Reminder.SecondReminderRefused | QuartzReminder.java:160-168 | a five-minute and then a ten-minute reminder for the same event: the first is accepted and the second refused with `ObjectAlreadyExistsException` |

## Left out

- The Quartz scheduler's internals are not modelled: the scheduler factory and its properties file, `start`, `shutdown`, `getMetaData`, dispatch at the fire instant, and misfire handling. A registered job runs only when `EventReminderJob.Execute` is called on a copy of its data map.
- `UnScheduler` and `buildTriggerKey` are not modelled: they only forward a fixed key to Quartz.
- `getScheduler` is not modelled. It returns the factory's single scheduler, which the model stands for with the `jobs` map.
- Reminder.QuartzReminder.Create: the jobs the process's scheduler already holds are a parameter. ScheduleTestReminder, ReminderScenario and SecondReminderRefused start from an empty scheduler, as a test run alone in a fresh process does.
- Reminder.QuartzReminder.ScheduleJob: stores the JobDetail itself, where Quartz's job store keeps a clone. Nothing in the engine changes a JobDetail after scheduling it, so the two agree.
- Reminder.RunTestJob: copies the stored data map with JobDataMap.Copy before the run, standing in for the job store's dispatch. The rest of that dispatch is not modelled.
- Reminder.QuartzReminder.SendMail: stops after `scheduleJob`. Starting the scheduler, `Thread.sleep(Long.MAX_VALUE)` and the shutdown after it concern the thread's lifetime.
- Reminder.BuildCronTrigger: `cron.asString()` and `CronScheduleBuilder.cronSchedule` belong to the cron libraries. The trigger holds the cron record itself. Of Quartz's checks on the parsed expression, only the bound of 30 on an `L-n` offset is modelled.
- Reminder.QuartzReminder.SendMail: `scheduleJob` refuses, with a `SchedulerException` caught at QuartzReminder.java:450, a cron trigger that will never fire. The trigger starts at the current time, so every past event is refused, and so is an event whose `L-day` day of its month has already passed. The clock is not part of the model, so SendMail promises a job for such events.
- Reminder.QuartzReminder.SendMail: a cron expression refused by a check of the cron libraries other than the `L-n` bound would also be logged and register nothing. Such checks (cron-utils' validation against the cron definition, any limit Quartz puts on the year field) are not modelled, so for those events the model promises a job the code may not register.
- The cron definition DSL (`defineOwnCronDefinition`) is not modelled; it is library configuration.
- Cron.CronBuilder: the record's day-of-month is `between(L, day)`, which cron syntax reads as an offset back from the last day of the month. ReadDateTime and ReadInstant read the record with the upper bound of that range as the day; when the cron library fires the record is not modelled.
- Cron.CronBuilder: cron-utils' builder checks each field against the cron definition when `withYear`, `withDoM` and the others are called, and throws `IllegalArgumentException` for a value outside the definition's range (by the library's defaults, years outside 1970..2099). That check is not modelled: CronBuilder succeeds for every year in LocalDateTime's range, where the code would log the exception in `sendMail` and register nothing.
- Cron.CronBuilder: the bounds of LocalDateTime's range are the constants LOCAL_MIN_SECOND and LOCAL_MAX_SECOND. That they are the first second of year -999999999 and the last of year 999999999 is not proved in the model.
- `getCurrentTimeByZoneId` and `convertZonedDateTime` are not modelled: they depend on the time-zone database. Formatting.FormatInstant takes the zone offset as a parameter, and Formatting.FormatInstantAsWritten takes the current zone time as one.
- Formatting.FormatInstant: the `DateTimeFormatter` output is not modelled. The result is the pattern and the local date-time the formatter receives.
- `Instant.now()` is a parameter `now` in LeadTimes.DaysOffsetFromNow, LeadTimes.DaysOffsetBeforeNow and the scenario methods.
- Instants: sub-second precision is not modelled. An instant is a whole epoch second.
- JavaLang.ParseInt: accepts ASCII digits only. `Integer.parseInt` also accepts other Unicode decimal digits; the engine only parses the strings it wrote itself.
- Logging and `System.out`/`System.err` output are not modelled.
- `MailHelper.sendMail` is static in the source. The model passes the mailer to `Execute` as an object. Mail transport is not modelled.
- `DataRepository` persistence is not modelled. The repository is a pair of fixed maps.
- The fields of `Event` and `User` are never null in the model, and `participantsList` is never null. Event.java and User.java are not part of this model.
- Reminder.QuartzReminder.SendMailBefore1Week: uses the corrected seven-day computation. The code as written always throws; see Findings.
- Reminder.SpamScenario: `EasyMock.verifyRecording`, the JVM memory and thread probes, and the 15-second sleep of the test are not modelled.

## Findings

| source | as written | input that shows it | evidently intended | confidence | as-written member | corrected member |
|---|---|---|---|---|---|---|
| QuartzReminder.java:470 | `Instant.minus(1, ChronoUnit.WEEKS)`, which `Instant` does not support | any event: `sendMailBefore1Week` throws `UnsupportedTemporalTypeException` before anything is scheduled | fire 604800 s (seven days) before the event | high, not executed | LeadTimes.OneWeekAsWrittenAlwaysThrows | LeadTimes.FireInstant |
| QuartzReminder.java:319-323 | the noon test and the formatting use the current time in the zone (`ZonedDateTime.now`), not the `instant` argument | an instant at 12:00 local time, pattern "h:mm a", formatted while the clock reads 09:00: the pattern keeps its `a`, and it is the current time that is formatted | format the given instant in the zone, and write NOON when that instant is at 12:00 | high, not executed | Formatting.NoonOfInstantIgnoredAsWritten | Formatting.FormatInstant |
