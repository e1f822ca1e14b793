/**
 * QuartzReminder: turns a reminder request into a job and a trigger and
 * registers them with the scheduler.
 *
 * The scheduler is modelled by what it holds, a map from job name to the job
 * and its trigger; registering adds one entry. Starting, dispatching and
 * shutting the scheduler down are outside the model; ReminderScenario at the
 * end runs a registered job once by calling EventReminderJob.Execute on a
 * copy of the job's data map.
 */
module Reminder {
  import opened Results
  import opened JavaLang
  import opened Instants
  import opened Calendar
  import opened Cron
  import opened Entities
  import opened JobData
  import opened ReminderJob
  import opened LeadTimes

  const JOB_DESCRIPTION: string := "Send Email for Upcoming Event"
  const ONE_SHOT_GROUP: string := "eventID?????"
  const ONE_SHOT_DESCRIPTION: string := "Send Email Trigger"
  const CRON_GROUP: string := "group2"
  const CRON_DESCRIPTION: string := "triggerDescription"

  /** A Quartz JobDetail for EventReminderJob: its name, its settings and its data map. */
  datatype JobDetail = JobDetail(
    name: string,
    description: string,
    durable: bool,
    requestsRecovery: bool,
    data: JobDataMap)

  datatype MisfireInstruction = FireNow

  /** A simple schedule with no repeats, fired once at `startAt`, or a cron schedule. */
  datatype Schedule =
    | SimpleOnce(startAt: Instant, misfire: MisfireInstruction)
    | CronSchedule(cron: CronRecord)

  datatype Trigger = Trigger(
    name: string,
    group: string,
    jobName: string,
    description: string,
    schedule: Schedule)

  datatype ScheduledJob = ScheduledJob(job: JobDetail, trigger: Trigger)

  /** The trigger fires the job it is named after. */
  predicate TriggersJob(t: Trigger, d: JobDetail) {
    t.jobName == d.name && t.name == d.name
  }

  /**
   * Date.from accepts an instant only if its epoch millisecond fits a long
   * (Instant.toEpochMilli throws otherwise, and Date.from rethrows as
   * IllegalArgumentException).
   */
  predicate FitsEpochMillis(t: int) {
    InLong(t * 1000)
  }

  /** The job data buildJobDetail puts for event `eid`. */
  function InitialJobData(eid: Int32, repo: DataRepository): map<string, DataValue> {
    map[COUNT := IntValue(1), EVENTNAME := StringValue("vc123"), REPO_USED := RepoValue(repo), EVENT_ID := IntValue(eid)]
  }

  /** The one-shot trigger sendNotification registers for job `name`. */
  function OneShotTrigger(name: string, startAt: Instant): Trigger {
    Trigger(name, ONE_SHOT_GROUP, name, ONE_SHOT_DESCRIPTION, SimpleOnce(startAt, FireNow))
  }

  /**
   * buildJobTrigger(JobDetail, Instant): a trigger for the job, sharing its
   * name, that fires once at `startAt` and fires at once after a misfire.
   */
  function BuildJobTrigger(jobDetail: JobDetail, startAt: Instant): (r: Result<Trigger, JavaException>)
    ensures r.Success? <==> FitsEpochMillis(startAt)
    ensures r.Failure? ==> r.error == IllegalArgumentException
    ensures r.Success? ==>
      && TriggersJob(r.value, jobDetail)
      && r.value.group == ONE_SHOT_GROUP
      && r.value.schedule.SimpleOnce?
      && r.value.schedule.startAt == startAt
      && r.value.schedule.misfire == FireNow
  {
    if !FitsEpochMillis(startAt) then Failure(IllegalArgumentException)
    else Success(OneShotTrigger(jobDetail.name, startAt))
  }

  /**
   * The largest offset back from the last day of the month that Quartz's
   * CronExpression accepts in a day-of-month `L-n`. A larger offset is a
   * ParseException, which CronScheduleBuilder.cronSchedule rethrows as a
   * RuntimeException.
   */
  const MAX_LAST_DAY_OFFSET: int := 30

  /** The day-of-month of the record is not an `L-n` whose offset Quartz refuses. */
  predicate LastDayOffsetAccepted(cron: CronRecord) {
    !(cron.dayOfMonth.Between? && cron.dayOfMonth.from == SpecialValue(L)
      && cron.dayOfMonth.to.IntegerValue? && cron.dayOfMonth.to.n > MAX_LAST_DAY_OFFSET)
  }

  /**
   * buildJobTrigger(JobDetail, Cron): a trigger for the job, sharing its name,
   * on the cron schedule, or the RuntimeException of cronSchedule when Quartz
   * refuses the record's day-of-month.
   */
  function BuildCronTrigger(jobDetail: JobDetail, cron: CronRecord): (r: Result<Trigger, JavaException>)
    ensures r.Success? <==> LastDayOffsetAccepted(cron)
    ensures r.Failure? ==> r.error == RuntimeException
    ensures r.Success? ==> TriggersJob(r.value, jobDetail)
    ensures r.Success? ==> r.value.group == CRON_GROUP && r.value.schedule == CronSchedule(cron)
  {
    if !LastDayOffsetAccepted(cron) then Failure(RuntimeException)
    else Success(Trigger(jobDetail.name, CRON_GROUP, jobDetail.name, CRON_DESCRIPTION, CronSchedule(cron)))
  }

  /**
   * The cron trigger for an instant in LocalDateTime's range is refused
   * exactly when the instant falls on the 31st of its month in UTC, the one
   * day whose `L-day` offset is above what Quartz accepts.
   */
  lemma CronTriggerRefusesThirtyFirst(jobDetail: JobDetail, t: Instant)
    requires InLocalRange(t)
    ensures BuildCronTrigger(jobDetail, CronBuilder(t).value).Failure? <==> FromEpochSecond(t).day == 31
  {
    var c := CronBuilder(t).value;
    assert ReadDateTime(c) == Some(FromEpochSecond(t));
    assert c.dayOfMonth.to.IntegerValue? && c.dayOfMonth.to.n == FromEpochSecond(t).day;
  }

  /**
   * The data a registered job starts with is what a firing consumes: the
   * first run of the job reads the repository and the event id back,
   * writes COUNT 2, and then does what Deliver says for that event.
   */
  lemma RegisteredJobFires(eid: Int32, repo: DataRepository, flag: string, repository: DataRepository?)
    ensures var d := Deliver(repo, eid);
      Fire(InitialJobData(eid, repo), flag, repository)
        == Firing(InitialJobData(eid, repo)[COUNT := IntValue(2)], OBJECT_CHANGED, repo, d.calls, d.mails, d.outcome)
  {
    var entries := InitialJobData(eid, repo);
    assert Get(entries, REPO_USED) == Some(RepoValue(repo));
    assert Get(entries, EVENTNAME) == Some(StringValue("vc123"));
    assert Get(entries, COUNT) == Some(IntValue(1));
    assert Get(entries, EVENT_ID) == Some(IntValue(eid));
  }

  /**
   * In a scheduler whose jobs are stored under their own names, the jobs
   * registered for two different events are different jobs with different
   * triggers: neither a JobDetail nor a trigger name is shared.
   */
  lemma JobNamesDistinct(jobs: map<string, ScheduledJob>, eid1: Int32, eid2: Int32)
    requires WellFormed(jobs)
    requires DecimalString(eid1) in jobs && DecimalString(eid2) in jobs && eid1 != eid2
    ensures jobs[DecimalString(eid1)].job != jobs[DecimalString(eid2)].job
    ensures jobs[DecimalString(eid1)].trigger.name != jobs[DecimalString(eid2)].trigger.name
  {
    DecimalStringInjective(eid1, eid2);
  }

  /** Every job is stored under its own name, with a trigger for it. */
  ghost predicate WellFormed(jobs: map<string, ScheduledJob>) {
    forall name :: name in jobs ==> jobs[name].job.name == name && TriggersJob(jobs[name].trigger, jobs[name].job)
  }

  class QuartzReminder {
    const repo: DataRepository
    /** The scheduler's jobs, by job name. */
    var jobs: map<string, ScheduledJob>

    /** Every registered job is stored under its own name, with a trigger for it. */
    ghost predicate Valid()
      reads this
    {
      WellFormed(jobs)
    }

    /** The data maps of the registered jobs. */
    ghost function DataMaps(): set<JobDataMap>
      reads this
    {
      set name | name in jobs :: jobs[name].job.data
    }

    /**
     * `scheduled` is what the scheduler already holds: StdSchedulerFactory
     * hands every QuartzReminder the same scheduler of the process.
     */
    constructor (repo: DataRepository, scheduled: map<string, ScheduledJob>)
      requires WellFormed(scheduled)
      ensures this.repo == repo && jobs == scheduled && Valid()
    {
      this.repo := repo;
      jobs := scheduled;
    }

    /**
     * new QuartzReminder(repo): a null repository is rejected with an
     * exception; otherwise the reminder works on the process's scheduler,
     * whose jobs are `scheduled`.
     */
    static method Create(repo: DataRepository?, scheduled: map<string, ScheduledJob>) returns (r: Result<QuartzReminder, JavaException>)
      requires WellFormed(scheduled)
      ensures r.Failure? <==> repo == null
      ensures r.Failure? ==> r.error == PlainException("no reop")
      ensures r.Success? ==> fresh(r.value) && r.value.repo == repo && r.value.jobs == scheduled && r.value.Valid()
    {
      if repo == null {
        return Failure(PlainException("no reop"));
      }
      var reminder := new QuartzReminder(repo, scheduled);
      r := Success(reminder);
    }

    /** buildJobDetail: a durable, non-recovering job named by the event id, over a fresh data map. */
    method BuildJobDetail(eventID: Int32) returns (d: JobDetail)
      ensures fresh(d.data)
      ensures d == JobDetail(DecimalString(eventID), JOB_DESCRIPTION, true, false, d.data)
      ensures d.data.entries == InitialJobData(eventID, repo)
    {
      var jobDataMap := new JobDataMap();
      jobDataMap.Put(COUNT, IntValue(1));
      jobDataMap.Put(EVENTNAME, StringValue("vc123"));
      jobDataMap.Put(REPO_USED, RepoValue(repo));
      jobDataMap.Put(EVENT_ID, IntValue(eventID));
      d := JobDetail(DecimalString(eventID), JOB_DESCRIPTION, true, false, jobDataMap);
    }

    /**
     * Scheduler.scheduleJob: registers the job with its trigger under the job's
     * name; a name already registered is refused with ObjectAlreadyExistsException.
     */
    method ScheduleJob(jobDetail: JobDetail, trigger: Trigger) returns (r: Outcome<JavaException>)
      requires Valid() && TriggersJob(trigger, jobDetail)
      modifies this
      ensures Valid()
      ensures r.Fail? <==> jobDetail.name in old(jobs)
      ensures r.Fail? ==> r.error == ObjectAlreadyExistsException && jobs == old(jobs)
      ensures r.Pass? ==> jobs == old(jobs)[jobDetail.name := ScheduledJob(jobDetail, trigger)]
    {
      if jobDetail.name in jobs {
        return Fail(ObjectAlreadyExistsException);
      }
      jobs := jobs[jobDetail.name := ScheduledJob(jobDetail, trigger)];
      r := Pass;
    }

    /**
     * The end of sendNotification(eid, startAt): either one new job for the
     * event, named by its id, with a fresh data map holding the initial job
     * data and a one-shot trigger at `startAt`, and nothing else changed; or
     * the exception and no change at all.
     */
    twostate predicate Notified(eid: Int32, startAt: Instant, new r: Outcome<JavaException>)
      reads this, DataMaps()
    {
      var name := DecimalString(eid);
      && (r.Pass? <==> FitsEpochMillis(startAt) && name !in old(jobs))
      && (!FitsEpochMillis(startAt) ==> r == Fail(IllegalArgumentException))
      && (FitsEpochMillis(startAt) && name in old(jobs) ==> r == Fail(ObjectAlreadyExistsException))
      && (r.Fail? ==> jobs == old(jobs))
      && (r.Pass? ==>
            && name in jobs
            && jobs == old(jobs)[name := jobs[name]]
            && jobs[name].job == JobDetail(name, JOB_DESCRIPTION, true, false, jobs[name].job.data)
            && fresh(jobs[name].job.data)
            && jobs[name].job.data.entries == InitialJobData(eid, repo)
            && jobs[name].trigger == OneShotTrigger(name, startAt))
    }

    /** sendNotification: build the job and its one-shot trigger, then schedule them. */
    method SendNotification(eid: Int32, startAt: Instant) returns (r: Outcome<JavaException>)
      requires Valid()
      modifies this
      ensures Valid()
      ensures Notified(eid, startAt, r)
    {
      var jobDetail := BuildJobDetail(eid);
      var trigger := BuildJobTrigger(jobDetail, startAt);
      if trigger.Failure? {
        return Fail(trigger.error);
      }
      r := ScheduleJob(jobDetail, trigger.value);
    }

    /** The end of a sendMailBefore* call: the fire instant's exception, or sendNotification's end. */
    twostate predicate Reminded(lead: LeadTime, event: Event, new r: Outcome<JavaException>)
      reads this, DataMaps()
    {
      match FireInstant(lead, event.date)
      case Failure(e) => r == Fail(e) && jobs == old(jobs)
      case Success(at) => Notified(event.eventID, at, r)
    }

    /** The body the sendMailBefore* methods share; the user argument is not used. */
    method SendMailBefore(lead: LeadTime, user: User, event: Event) returns (r: Outcome<JavaException>)
      requires Valid()
      modifies this
      ensures Valid()
      ensures Reminded(lead, event, r)
    {
      var schedTime := FireInstant(lead, event.date);
      if schedTime.Failure? {
        return Fail(schedTime.error);
      }
      r := SendNotification(event.eventID, schedTime.value);
    }

    method SendMailBefore5Min(user: User, event: Event) returns (r: Outcome<JavaException>)
      requires Valid()
      modifies this
      ensures Valid() && Reminded(FiveMinutes, event, r)
    {
      r := SendMailBefore(FiveMinutes, user, event);
    }

    method SendMailBefore10Min(user: User, event: Event) returns (r: Outcome<JavaException>)
      requires Valid()
      modifies this
      ensures Valid() && Reminded(TenMinutes, event, r)
    {
      r := SendMailBefore(TenMinutes, user, event);
    }

    method SendMailBefore15Min(user: User, event: Event) returns (r: Outcome<JavaException>)
      requires Valid()
      modifies this
      ensures Valid() && Reminded(FifteenMinutes, event, r)
    {
      r := SendMailBefore(FifteenMinutes, user, event);
    }

    method SendMailBefore30Min(user: User, event: Event) returns (r: Outcome<JavaException>)
      requires Valid()
      modifies this
      ensures Valid() && Reminded(ThirtyMinutes, event, r)
    {
      r := SendMailBefore(ThirtyMinutes, user, event);
    }

    method SendMailBefore1Hour(user: User, event: Event) returns (r: Outcome<JavaException>)
      requires Valid()
      modifies this
      ensures Valid() && Reminded(OneHour, event, r)
    {
      r := SendMailBefore(OneHour, user, event);
    }

    method SendMailBefore3Days(user: User, event: Event) returns (r: Outcome<JavaException>)
      requires Valid()
      modifies this
      ensures Valid() && Reminded(ThreeDays, event, r)
    {
      r := SendMailBefore(ThreeDays, user, event);
    }

    /** With the one-week lead computed as seven days; see FireInstantAsWritten for the source's call. */
    method SendMailBefore1Week(user: User, event: Event) returns (r: Outcome<JavaException>)
      requires Valid()
      modifies this
      ensures Valid() && Reminded(OneWeek, event, r)
    {
      r := SendMailBefore(OneWeek, user, event);
    }

    /**
     * sendMail(eid), up to the point where the source blocks its thread: look
     * the event up, build the job and a cron trigger on the event's date, and
     * schedule them. Every exception is caught and logged; `logged` is the
     * one that was. A missing event ends in NullPointerException, a date
     * outside LocalDateTime's range in DateTimeException, a date on the 31st
     * of its month in the RuntimeException of Quartz's cron parser.
     */
    method SendMail(eid: Int32) returns (logged: Option<JavaException>)
      requires Valid()
      modifies this, repo
      ensures Valid()
      ensures repo.calls == old(repo.calls) + [EventLookup(eid)]
      ensures eid !in repo.events ==> logged == Some(NullPointerException) && jobs == old(jobs)
      ensures eid in repo.events && !InLocalRange(repo.events[eid].date) ==>
        logged == Some(DateTimeException) && jobs == old(jobs)
      ensures eid in repo.events && InLocalRange(repo.events[eid].date) && FromEpochSecond(repo.events[eid].date).day == 31 ==>
        logged == Some(RuntimeException) && jobs == old(jobs)
      ensures (eid in repo.events && InLocalRange(repo.events[eid].date) && FromEpochSecond(repo.events[eid].date).day <= 30
               && DecimalString(eid) in old(jobs)) ==>
        logged == Some(ObjectAlreadyExistsException) && jobs == old(jobs)
      ensures (eid in repo.events && InLocalRange(repo.events[eid].date) && FromEpochSecond(repo.events[eid].date).day <= 30
               && DecimalString(eid) !in old(jobs)) ==>
        var name := DecimalString(eid);
        && logged == None
        && name in jobs
        && jobs == old(jobs)[name := jobs[name]]
        && jobs[name].job == JobDetail(name, JOB_DESCRIPTION, true, false, jobs[name].job.data)
        && fresh(jobs[name].job.data)
        && jobs[name].job.data.entries == InitialJobData(eid, repo)
        && jobs[name].trigger == BuildCronTrigger(jobs[name].job, CronBuilder(repo.events[eid].date).value).value
        && ReadInstant(jobs[name].trigger.schedule.cron) == Some(repo.events[eid].date as int)
    {
      var e := repo.FindEventByID(eid);
      if e.None? {
        return Some(NullPointerException);
      }
      var jobDetail := BuildJobDetail(eid);
      var cron := CronBuilder(e.value.date);
      if cron.Failure? {
        return Some(cron.error);
      }
      CronTriggerRefusesThirtyFirst(jobDetail, e.value.date);
      var trigger := BuildCronTrigger(jobDetail, cron.value);
      if trigger.Failure? {
        return Some(trigger.error);
      }
      var scheduled := ScheduleJob(jobDetail, trigger.value);
      logged := if scheduled.Fail? then Some(scheduled.error) else None;
    }
  }

  const TEST_EMAIL: string := "timescheduler180@gmail.com"
  /** The ids the test's set-up loop registers with the mocked repository. */
  const TEST_IDS: set<Int32> := {0, 1, 2, 3, 4, 5, 6, 7, 8, 9}

  const TEST_NAMES: seq<string> := ["name1", "name2", "name3"]

  /** The repository calls a run over the test participants makes, one per name in order. */
  lemma TestUserLookups()
    ensures UserLookups(TEST_NAMES, 3) == [UserLookup("name1"), UserLookup("name2"), UserLookup("name3")]
  {
    var lookups := UserLookups(TEST_NAMES, 3);
    assert lookups[0] == UserLookup("name1") && lookups[1] == UserLookup("name2") && lookups[2] == UserLookup("name3");
  }

  const TEST_USERS: map<string, User> :=
    map["name1" := User("name1", TEST_EMAIL), "name2" := User("name2", TEST_EMAIL), "name3" := User("name3", TEST_EMAIL)]

  /** The test's event, starting 310 seconds after `now`. */
  function TestEvent(now: Instant): Event
    requires InInstantRange(now + 310)
  {
    Event(9, "test event", "test organizer", now + 310, TEST_NAMES)
  }

  /**
   * The test's set-up and its request for a reminder five minutes before the
   * event, in a process whose scheduler holds no jobs yet.
   */
  method ScheduleTestReminder(now: Instant)
    returns (registered: Outcome<JavaException>, repository: DataRepository, data: JobDataMap, jobs: map<string, ScheduledJob>)
    requires InInstantRange(now + 310) && FitsEpochMillis(now + 10)
    ensures registered == Pass
    ensures 9 in repository.events && repository.events[9] == TestEvent(now)
    ensures repository.users == TEST_USERS && repository.calls == []
    ensures data.entries == InitialJobData(9, repository)
    ensures WellFormed(jobs) && jobs.Keys == {"9"} && jobs["9"].job.data == data
    ensures fresh(repository) && fresh(data)
  {
    var testEvent := TestEvent(now);
    repository := new DataRepository(map i | i in TEST_IDS :: testEvent, TEST_USERS);
    var created := QuartzReminder.Create(repository, map[]);
    var reminder := created.value;
    registered := reminder.SendMailBefore5Min(User("testname", "testemail"), testEvent);
    assert DecimalString(9) == "9";
    data := reminder.jobs["9"].job.data;
    jobs := reminder.jobs;
  }

  /**
   * One run of the job registered for the test's event, on a copy of its
   * stored data map as the job store hands it over: the stored map keeps
   * COUNT 1, and the copy, which is then dropped, ends with COUNT 2.
   */
  method RunTestJob(now: Instant, repository: DataRepository, stored: JobDataMap)
    returns (fired: Outcome<JavaException>, mails: seq<Mail>, runCount: Option<DataValue>)
    requires InInstantRange(now + 310)
    requires 9 in repository.events && repository.events[9] == TestEvent(now)
    requires repository.users == TEST_USERS && repository.calls == []
    requires stored.entries == InitialJobData(9, repository)
    modifies repository
    ensures fired == Pass
    ensures repository.calls == [EventLookup(9), UserLookup("name1"), UserLookup("name2"), UserLookup("name3")]
    ensures mails == MailsTo(TestEvent(now), TEST_USERS, 3)
    ensures runCount == Some(IntValue(2))
  {
    var data := stored.Copy();
    var job := new EventReminderJob();
    var mailer := new MailHelper();
    RegisteredJobFires(9, repository, job.flag, job.repository);
    AllResolvedDelivery(repository, 9);
    fired := job.Execute(data, mailer);
    TestUserLookups();
    mails := mailer.outbox;
    runCount := Get(data.entries, COUNT);
  }

  /**
   * The reminder test's scenario: the event "test event" starts 310 seconds
   * after `now`, with participants name1, name2 and name3, and the mocked
   * repository answers ids 0 to 9 with it (the test's set-up loop leaves its
   * id at 9) and each name with a user of that name. Asking for a reminder
   * five minutes before registers job "9"; running that job once looks the
   * event up once, looks each name up once and sends three reminders. The
   * run counts to 2 in its copy of the data; the stored COUNT stays 1.
   */
  method ReminderScenario(now: Instant)
    returns (registered: Outcome<JavaException>, fired: Outcome<JavaException>, calls: seq<RepositoryCall>, mails: seq<Mail>,
             runCount: Option<DataValue>, storedCount: Option<DataValue>)
    requires InInstantRange(now + 310) && FitsEpochMillis(now + 10)
    ensures registered == Pass && fired == Pass
    ensures calls == [EventLookup(9), UserLookup("name1"), UserLookup("name2"), UserLookup("name3")]
    ensures |mails| == 3
    ensures forall i :: 0 <= i < 3 ==> mails[i].subject == "reminder" && mails[i].recipients == [TEST_EMAIL]
    ensures runCount == Some(IntValue(2)) && storedCount == Some(IntValue(1))
  {
    var repository, data, jobs;
    registered, repository, data, jobs := ScheduleTestReminder(now);
    fired, mails, runCount := RunTestJob(now, repository, data);
    calls := repository.calls;
    storedCount := Get(data.entries, COUNT);
  }

  /** The names of the jobs of ids 0 to n - 1. */
  function IdNames(n: Int32): set<string>
    requires 0 <= n
  {
    set id: Int32 | 0 <= id < n :: DecimalString(id)
  }

  lemma IdNamesStep(n: Int32)
    requires 0 <= n < INT_MAX
    ensures IdNames(n + 1) == IdNames(n) + {DecimalString(n)}
    ensures DecimalString(n) !in IdNames(n)
  {
    forall id: Int32 | 0 <= id < n
      ensures DecimalString(id) != DecimalString(n)
    {
      DecimalStringInjective(id, n);
    }
  }

  /** The number of requests the spam test's loop makes when none is refused. */
  const SPAM_REQUESTS: Int32 := 10

  /**
   * The first id from `from` on, below SPAM_REQUESTS, whose job the scheduler
   * already holds, or SPAM_REQUESTS when it holds none of them.
   */
  function FirstHeld(scheduled: map<string, ScheduledJob>, from: Int32): (k: Int32)
    requires 0 <= from <= SPAM_REQUESTS
    ensures from <= k <= SPAM_REQUESTS
    ensures forall id: Int32 :: from <= id < k ==> DecimalString(id) !in scheduled
    ensures k < SPAM_REQUESTS ==> DecimalString(k) in scheduled
    decreases SPAM_REQUESTS - from
  {
    if from == SPAM_REQUESTS || DecimalString(from) in scheduled then from
    else FirstHeld(scheduled, from + 1)
  }

  /** One request of the spam test: a five-minute reminder for event `id` of the test's date. */
  method SpamRequest(reminder: QuartzReminder, now: Instant, id: Int32) returns (r: Outcome<JavaException>)
    requires InInstantRange(now + 310) && FitsEpochMillis(now + 10)
    requires reminder.Valid()
    modifies reminder
    ensures reminder.Valid()
    ensures r == Pass <==> DecimalString(id) !in old(reminder.jobs)
    ensures r != Pass ==> r == Fail(ObjectAlreadyExistsException)
    ensures reminder.jobs.Keys == old(reminder.jobs.Keys) + {DecimalString(id)}
  {
    var testEvent := Event(id, "test event", "test organizer", now + 310, TEST_NAMES);
    r := reminder.SendMailBefore5Min(User("testname", "testemail"), testEvent);
  }

  /**
   * What the spam test's loop knows before the request for `id`: the
   * scheduler holds the old jobs and those of the ids before `id`, so the
   * request is refused exactly when `id` is the first held id.
   */
  lemma SpamStepFacts(scheduled: map<string, ScheduledJob>, id: Int32, keys: set<string>)
    requires 0 <= id <= FirstHeld(scheduled, 0) && id < SPAM_REQUESTS
    requires keys == scheduled.Keys + IdNames(id)
    ensures DecimalString(id) in keys <==> DecimalString(id) in scheduled
    ensures DecimalString(id) in scheduled <==> id == FirstHeld(scheduled, 0)
    ensures keys + {DecimalString(id)} == scheduled.Keys + IdNames(id + 1)
  {
    IdNamesStep(id);
  }

  /** The outcomes of `n` accepted requests in a row. */
  function Accepted(n: nat): (s: seq<Outcome<JavaException>>)
    ensures |s| == n
    ensures forall j :: 0 <= j < n ==> s[j] == Pass
  {
    if n == 0 then [] else Accepted(n - 1) + [Pass]
  }

  /**
   * The outcomes of the spam test's requests: every request up to the first
   * held id is accepted, and that one, if there is one, is refused.
   */
  function SpamOutcomes(scheduled: map<string, ScheduledJob>): seq<Outcome<JavaException>> {
    var k := FirstHeld(scheduled, 0);
    if k < SPAM_REQUESTS then Accepted(k as int) + [Fail(ObjectAlreadyExistsException)] else Accepted(k as int)
  }

  /**
   * The outcomes the spam test ends with are accepted exactly for the ids
   * whose job the scheduler did not hold before.
   */
  lemma SpamOutcomesMeaning(scheduled: map<string, ScheduledJob>)
    ensures var outcomes, k := SpamOutcomes(scheduled), FirstHeld(scheduled, 0);
      && |outcomes| == (if k < SPAM_REQUESTS then k as int + 1 else k as int)
      && (forall i :: 0 <= i < k ==> outcomes[i] == Pass)
      && (k < SPAM_REQUESTS ==> outcomes[k] == Fail(ObjectAlreadyExistsException))
    ensures var outcomes := SpamOutcomes(scheduled);
      forall i: Int32 :: 0 <= i < |outcomes| ==> (outcomes[i] == Pass <==> DecimalString(i) !in scheduled)
  {
    var outcomes, k := SpamOutcomes(scheduled), FirstHeld(scheduled, 0);
    assert forall i :: 0 <= i < k ==> outcomes[i] == Accepted(k as int)[i];
  }

  /**
   * On a scheduler that already holds job "3" but none of "0" to "2", the
   * spam test makes four requests: 0, 1 and 2 are accepted, 3 is refused,
   * and 4 to 9 are never requested.
   */
  lemma SpamStopsAtHeldJob(scheduled: map<string, ScheduledJob>)
    requires "3" in scheduled && "0" !in scheduled && "1" !in scheduled && "2" !in scheduled
    ensures SpamOutcomes(scheduled) == [Pass, Pass, Pass, Fail(ObjectAlreadyExistsException)]
  {
    assert DecimalString(0) == "0" && DecimalString(1) == "1" && DecimalString(2) == "2" && DecimalString(3) == "3";
    assert FirstHeld(scheduled, 0) == 3;
    assert Accepted(3) == [Pass, Pass, Pass];
  }

  /**
   * The loop of the spam test on `reminder`, whose scheduler holds
   * `scheduled`: the requests for ids 0 to 9 in order, ending at the first
   * one refused.
   */
  method SpamRequests(reminder: QuartzReminder, now: Instant, ghost scheduled: map<string, ScheduledJob>)
    returns (outcomes: seq<Outcome<JavaException>>)
    requires InInstantRange(now + 310) && FitsEpochMillis(now + 10)
    requires reminder.Valid() && reminder.jobs.Keys == scheduled.Keys
    modifies reminder
    ensures reminder.Valid()
    ensures outcomes == SpamOutcomes(scheduled)
    ensures reminder.jobs.Keys == scheduled.Keys + IdNames(FirstHeld(scheduled, 0))
  {
    ghost var k := FirstHeld(scheduled, 0);
    assert IdNames(0) == {};
    outcomes := [];
    var i: Int32 := 0;
    while i < SPAM_REQUESTS
      invariant 0 <= i <= k
      invariant reminder.Valid()
      invariant outcomes == Accepted(i as int)
      invariant reminder.jobs.Keys == scheduled.Keys + IdNames(i)
    {
      SpamStepFacts(scheduled, i, reminder.jobs.Keys);
      var r := SpamRequest(reminder, now, i);
      if r != Pass {
        outcomes := outcomes + [r];
        break;
      }
      outcomes := outcomes + [r];
      i := i + 1;
    }
  }

  /**
   * The spam test: one reminder five minutes before the event for each of
   * the ids 0 to 9, in order, on one QuartzReminder whose scheduler already
   * holds `scheduled`. The loop has no handler, so the first request refused
   * with ObjectAlreadyExistsException ends the test. Every request before
   * it is accepted, and the scheduler ends up with one new job per
   * accepted id besides those it held.
   */
  method SpamScenario(now: Instant, scheduled: map<string, ScheduledJob>)
    returns (outcomes: seq<Outcome<JavaException>>, jobNames: set<string>)
    requires InInstantRange(now + 310) && FitsEpochMillis(now + 10)
    requires WellFormed(scheduled)
    ensures var k := FirstHeld(scheduled, 0);
      && |outcomes| == (if k < SPAM_REQUESTS then k as int + 1 else k as int)
      && (forall i :: 0 <= i < k ==> outcomes[i] == Pass)
      && (k < SPAM_REQUESTS ==> outcomes[k] == Fail(ObjectAlreadyExistsException))
      && jobNames == scheduled.Keys + IdNames(k)
    ensures forall i: Int32 :: 0 <= i < |outcomes| ==> (outcomes[i] == Pass <==> DecimalString(i) !in scheduled)
  {
    var repository := new DataRepository(map i | i in TEST_IDS :: TestEvent(now), TEST_USERS);
    var created := QuartzReminder.Create(repository, scheduled);
    var reminder := created.value;
    outcomes := SpamRequests(reminder, now, scheduled);
    jobNames := reminder.jobs.Keys;
    SpamOutcomesMeaning(scheduled);
  }

  /**
   * The reminder test and then the spam test in one process: both reach the
   * same scheduler, where the first left the durable job "9", so the spam
   * test's request for id 9 is refused and the other nine are accepted.
   */
  method TestsInOneProcess(now: Instant) returns (outcomes: seq<Outcome<JavaException>>)
    requires InInstantRange(now + 310) && FitsEpochMillis(now + 10)
    ensures |outcomes| == 10
    ensures forall i :: 0 <= i < 9 ==> outcomes[i] == Pass
    ensures outcomes[9] == Fail(ObjectAlreadyExistsException)
  {
    var registered, repository, data, jobs := ScheduleTestReminder(now);
    var jobNames;
    outcomes, jobNames := SpamScenario(now, jobs);
    assert DecimalString(9) == "9";
    forall i: Int32 | 0 <= i < 9
      ensures DecimalString(i) !in jobs
    {
      DecimalStringInjective(i, 9);
    }
    assert FirstHeld(jobs, 0) == 9;
  }

  /**
   * Jobs are named by the event id alone, so a second reminder for the same
   * event, with another lead time, is refused while the first is scheduled.
   */
  method SecondReminderRefused(now: Instant, event: Event) returns (first: Outcome<JavaException>, second: Outcome<JavaException>)
    requires InInstantRange(event.date - 600)
    requires FitsEpochMillis(event.date - 300) && FitsEpochMillis(event.date - 600)
    ensures first == Pass
    ensures second == Fail(ObjectAlreadyExistsException)
  {
    var repository := new DataRepository(map[], map[]);
    var created := QuartzReminder.Create(repository, map[]);
    var reminder := created.value;
    first := reminder.SendMailBefore5Min(User("testname", "testemail"), event);
    second := reminder.SendMailBefore10Min(User("testname", "testemail"), event);
  }
}
