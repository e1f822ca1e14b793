/**
 * EventReminderJob: the job body Quartz runs when a reminder's trigger fires.
 *
 * Fire is the specification of one run of execute, as a function of the job
 * data entries, the job's two fields and the repository's contents: what the
 * entries, the fields, the repository's call log and the mail outbox become,
 * and whether the run ends normally or with an exception. The class's Execute
 * method performs the run step by step and is proved to do what Fire says.
 */
module ReminderJob {
  import opened Results
  import opened JavaLang
  import opened Entities
  import opened JobData

  const NEW_OBJECT: string := "new object"
  const OBJECT_CHANGED: string := "object changed"

  /** The reminder sent to one participant of an event. */
  function ReminderMail(u: User, e: Event): Mail {
    Mail("reminder", "Upcoming event! " + u.username + e.eventName + "excited?", [u.email])
  }

  /** The index of the first name the user map does not resolve, or |names| when it resolves all. */
  function FirstUnresolved(names: seq<string>, users: map<string, User>): (k: nat)
    ensures k <= |names|
    ensures forall i :: 0 <= i < k ==> names[i] in users
    ensures k < |names| ==> names[k] !in users
  {
    if |names| == 0 || names[0] !in users then 0
    else 1 + FirstUnresolved(names[1..], users)
  }

  /** The mails to the first `k` participants of `e`, in list order. */
  function MailsTo(e: Event, users: map<string, User>, k: nat): seq<Mail>
    requires k <= |e.participantsList|
    requires forall i :: 0 <= i < k ==> e.participantsList[i] in users
  {
    seq(k, i requires 0 <= i < k => ReminderMail(users[e.participantsList[i]], e))
  }

  /** findUserByName calls for the first `k` names, in list order. */
  function UserLookups(names: seq<string>, k: nat): seq<RepositoryCall>
    requires k <= |names|
  {
    seq(k, i requires 0 <= i < k => UserLookup(names[i]))
  }

  lemma UserLookupsStep(names: seq<string>, k: nat)
    requires k < |names|
    ensures UserLookups(names, k + 1) == UserLookups(names, k) + [UserLookup(names[k])]
  {
  }

  lemma MailsToStep(e: Event, users: map<string, User>, k: nat)
    requires k < |e.participantsList|
    requires forall i :: 0 <= i <= k ==> e.participantsList[i] in users
    ensures MailsTo(e, users, k + 1) == MailsTo(e, users, k) + [ReminderMail(users[e.participantsList[k]], e)]
  {
  }

  /** An event whose participants all resolve gets every lookup and every mail, and no exception. */
  lemma AllResolvedDelivery(repo: DataRepository, eid: Int32)
    requires eid in repo.events
    requires forall i :: 0 <= i < |repo.events[eid].participantsList| ==> repo.events[eid].participantsList[i] in repo.users
    ensures var names := repo.events[eid].participantsList;
      Deliver(repo, eid)
        == Delivery([EventLookup(eid)] + UserLookups(names, |names|), MailsTo(repo.events[eid], repo.users, |names|), Pass)
  {
  }

  /** What one run of execute leaves behind. */
  datatype Firing = Firing(
    entries: map<string, DataValue>,
    flag: string,
    repository: DataRepository?,
    calls: seq<RepositoryCall>,
    mails: seq<Mail>,
    outcome: Outcome<JavaException>)

  /** The lookups, mails and end of the part of a run that follows the event id's lookup. */
  datatype Delivery = Delivery(calls: seq<RepositoryCall>, mails: seq<Mail>, outcome: Outcome<JavaException>)

  /**
   * From the event lookup on: a missing event throws InputMismatchException
   * after its lookup; a found one gets one user lookup and one mail per
   * participant, in list order, until a name does not resolve, which ends the
   * run with NullPointerException.
   */
  function Deliver(repo: DataRepository, eid: Int32): (d: Delivery)
    ensures eid !in repo.events ==>
      d == Delivery([EventLookup(eid)], [], Fail(InputMismatchException("the eid does not exist")))
    ensures eid in repo.events ==>
      var names := repo.events[eid].participantsList;
      && |d.mails| <= |names|
      && (forall i :: 0 <= i < |d.mails| ==>
            names[i] in repo.users && d.mails[i] == ReminderMail(repo.users[names[i]], repo.events[eid]))
      && (d.outcome.Pass? <==> forall i :: 0 <= i < |names| ==> names[i] in repo.users)
      && (d.outcome.Pass? ==> |d.mails| == |names|)
      && (d.outcome.Fail? ==> d.outcome == Fail(NullPointerException) && names[|d.mails|] !in repo.users)
      && |d.calls| == |d.mails| + (if d.outcome.Pass? then 1 else 2)
      && d.calls[0] == EventLookup(eid)
      && (forall i :: 0 <= i < |d.calls| - 1 ==> d.calls[i + 1] == UserLookup(names[i]))
  {
    if eid !in repo.events then
      Delivery([EventLookup(eid)], [], Fail(InputMismatchException("the eid does not exist")))
    else
      var e := repo.events[eid];
      var names := e.participantsList;
      var k := FirstUnresolved(names, repo.users);
      var looked := if k < |names| then k + 1 else k;
      Delivery([EventLookup(eid)] + UserLookups(names, looked),
               MailsTo(e, repo.users, k),
               if k < |names| then Fail(NullPointerException) else Pass)
  }

  /**
   * One run of execute on job data `entries`, starting with the job's fields
   * `flag` and `repository`. In source order: cast the REPO entry and store
   * it in `repository`; read EVENTNAME as a string; read COUNT as an int and
   * write COUNT + 1 (with int wrap-around) back; set `flag`; read the event
   * id as a number; look the event up and throw InputMismatchException if it
   * is missing; then, per participant in order, look the user up and send one
   * mail, a user that is not found ending the run with NullPointerException.
   */
  function Fire(entries: map<string, DataValue>, flag: string, repository: DataRepository?): (f: Firing)
    ensures forall key :: key != COUNT ==> Get(f.entries, key) == Get(entries, key)
    ensures f.repository == null ==> f.calls == [] && f.mails == []
    ensures |f.mails| <= |f.calls|
    ensures f.outcome.Pass? ==> f.flag == OBJECT_CHANGED && f.repository != null
  {
    match AsRepository(Get(entries, REPO_USED))
    case Failure(e) => Firing(entries, flag, repository, [], [], Fail(e))
    case Success(repo) =>
      match AsString(Get(entries, EVENTNAME))
      case Failure(e) => Firing(entries, flag, repo, [], [], Fail(e))
      case Success(_) =>
        match AsInt(Get(entries, COUNT))
        case Failure(e) => Firing(entries, flag, repo, [], [], Fail(e))
        case Success(count) =>
          var written := entries[COUNT := IntValue(Wrap32(count + 1))];
          match AsNumberInt(Get(entries, EVENT_ID))
          case Failure(e) => Firing(written, OBJECT_CHANGED, repo, [], [], Fail(e))
          case Success(eid) =>
            if repo == null then Firing(written, OBJECT_CHANGED, repo, [], [], Fail(NullPointerException))
            else
              var d := Deliver(repo, eid);
              Firing(written, OBJECT_CHANGED, repo, d.calls, d.mails, d.outcome)
  }

  /** The entries a run can read its counter from without an exception first. */
  predicate CountReadable(entries: map<string, DataValue>) {
    && AsRepository(Get(entries, REPO_USED)).Success?
    && AsString(Get(entries, EVENTNAME)).Success?
    && AsInt(Get(entries, COUNT)).Success?
  }

  /**
   * A run whose counter can be read and whose entries name a repository and
   * an event id goes on to do what Deliver says for them.
   */
  lemma FireDelivers(entries: map<string, DataValue>, flag: string, repository: DataRepository?, repo: DataRepository, eid: Int32)
    requires CountReadable(entries)
    requires Get(entries, REPO_USED) == Some(RepoValue(repo))
    requires Get(entries, EVENT_ID) == Some(IntValue(eid))
    ensures var d := Deliver(repo, eid);
      Fire(entries, flag, repository)
        == Firing(entries[COUNT := IntValue(Wrap32(AsInt(Get(entries, COUNT)).value + 1))], OBJECT_CHANGED, repo, d.calls, d.mails, d.outcome)
  {
  }

  /**
   * The counter is incremented exactly when it can be read, before the event
   * is looked up, so whatever the lookup and the mails then do; nothing else
   * in the job data changes. When it cannot be read, the run fails with the
   * data, the flag and the call log as they were and no mail.
   */
  lemma CountIncremented(entries: map<string, DataValue>, flag: string, repository: DataRepository?)
    ensures var f := Fire(entries, flag, repository);
      && (CountReadable(entries) ==>
            f.entries == entries[COUNT := IntValue(Wrap32(AsInt(Get(entries, COUNT)).value + 1))]
            && f.flag == OBJECT_CHANGED)
      && (!CountReadable(entries) ==> f.entries == entries && f.flag == flag && f.calls == [] && f.mails == [] && f.outcome.Fail?)
  {
  }

  /** A missing event ends the run with InputMismatchException after the one lookup, and no mail. */
  lemma MissingEventSendsNothing(entries: map<string, DataValue>, flag: string, repository: DataRepository?, repo: DataRepository, eid: Int32)
    requires CountReadable(entries)
    requires Get(entries, REPO_USED) == Some(RepoValue(repo))
    requires Get(entries, EVENT_ID) == Some(IntValue(eid))
    requires eid !in repo.events
    ensures var f := Fire(entries, flag, repository);
      && f.outcome == Fail(InputMismatchException("the eid does not exist"))
      && f.calls == [EventLookup(eid)]
      && f.mails == []
  {
    FireDelivers(entries, flag, repository, repo, eid);
  }

  /**
   * For a found event whose participants all resolve: the event is looked up
   * once, then each name once in list order, and participant i gets exactly
   * one mail, the reminder to the i-th resolved user.
   */
  lemma OneMailPerParticipant(entries: map<string, DataValue>, flag: string, repository: DataRepository?, repo: DataRepository, eid: Int32)
    requires CountReadable(entries)
    requires Get(entries, REPO_USED) == Some(RepoValue(repo))
    requires Get(entries, EVENT_ID) == Some(IntValue(eid))
    requires eid in repo.events
    requires forall name :: name in repo.events[eid].participantsList ==> name in repo.users
    ensures var f := Fire(entries, flag, repository);
      var names := repo.events[eid].participantsList;
      && f.outcome == Pass
      && |f.calls| == |names| + 1
      && f.calls[0] == EventLookup(eid)
      && (forall i :: 0 <= i < |names| ==> f.calls[i + 1] == UserLookup(names[i]))
      && |f.mails| == |names|
      && (forall i :: 0 <= i < |names| ==>
            var u := repo.users[names[i]];
            f.mails[i] == Mail("reminder", "Upcoming event! " + u.username + repo.events[eid].eventName + "excited?", [u.email]))
  {
    FireDelivers(entries, flag, repository, repo, eid);
    AllResolvedDelivery(repo, eid);
  }

  /**
   * A participant that does not resolve stops the run: the mails sent are
   * those to the participants before it, its own lookup is the last call, and
   * the run ends with NullPointerException.
   */
  lemma UnresolvedParticipantStops(entries: map<string, DataValue>, flag: string, repository: DataRepository?, repo: DataRepository, eid: Int32, k: nat)
    requires CountReadable(entries)
    requires Get(entries, REPO_USED) == Some(RepoValue(repo))
    requires Get(entries, EVENT_ID) == Some(IntValue(eid))
    requires eid in repo.events
    requires k < |repo.events[eid].participantsList|
    requires repo.events[eid].participantsList[k] !in repo.users
    requires forall i :: 0 <= i < k ==> repo.events[eid].participantsList[i] in repo.users
    ensures var f := Fire(entries, flag, repository);
      var names := repo.events[eid].participantsList;
      && f.outcome == Fail(NullPointerException)
      && f.calls == [EventLookup(eid)] + UserLookups(names, k + 1)
      && f.mails == MailsTo(repo.events[eid], repo.users, k)
  {
    FireDelivers(entries, flag, repository, repo, eid);
    assert FirstUnresolved(repo.events[eid].participantsList, repo.users) == k;
  }

  class EventReminderJob {
    var flag: string
    var repository: DataRepository?

    constructor ()
      ensures flag == NEW_OBJECT && repository == null
    {
      flag := NEW_OBJECT;
      repository := null;
    }

    /**
     * One run of the job on the data map of its JobDetail; MailHelper, static
     * in the source, is passed in. The run changes the job's fields, the
     * data map, the repository the map refers to, and the mailer, exactly as
     * Fire says, and returns the exception it would throw.
     */
    method Execute(dataMap: JobDataMap, mailer: MailHelper) returns (r: Outcome<JavaException>)
      modifies this, dataMap, mailer, RepositoryIn(dataMap.entries)
      ensures var f := Fire(old(dataMap.entries), old(flag), old(repository));
        && dataMap.entries == f.entries
        && flag == f.flag
        && repository == f.repository
        && r == f.outcome
        && mailer.outbox == old(mailer.outbox) + f.mails
        && (f.repository != null ==> f.repository.calls == old(f.repository.calls) + f.calls)
    {
      ghost var entries, f := dataMap.entries, Fire(dataMap.entries, flag, repository);
      var eventIdObject := Get(dataMap.entries, EVENT_ID);
      var cast := AsRepository(Get(dataMap.entries, REPO_USED));
      if cast.Failure? {
        assert f == Firing(entries, flag, repository, [], [], Fail(cast.error));
        return Fail(cast.error);
      }
      repository := cast.value;
      var eventName := AsString(Get(dataMap.entries, EVENTNAME));
      if eventName.Failure? {
        assert f == Firing(entries, flag, repository, [], [], Fail(eventName.error));
        return Fail(eventName.error);
      }
      var count := AsInt(Get(dataMap.entries, COUNT));
      if count.Failure? {
        assert f == Firing(entries, flag, repository, [], [], Fail(count.error));
        return Fail(count.error);
      }
      dataMap.Put(COUNT, IntValue(Wrap32(count.value as int + 1)));
      flag := OBJECT_CHANGED;

      var eid := AsNumberInt(eventIdObject);
      if eid.Failure? {
        assert f == Firing(dataMap.entries, flag, repository, [], [], Fail(eid.error));
        return Fail(eid.error);
      }
      var repo := repository;
      if repo == null {
        return Fail(NullPointerException);
      }
      r := Remind(repo, eid.value, mailer);
    }

    /** The event lookup and the per-participant loop of execute, as Deliver specifies them. */
    method Remind(repo: DataRepository, eid: Int32, mailer: MailHelper) returns (r: Outcome<JavaException>)
      modifies repo, mailer
      ensures var d := Deliver(repo, eid);
        && r == d.outcome
        && repo.calls == old(repo.calls) + d.calls
        && mailer.outbox == old(mailer.outbox) + d.mails
    {
      var found := repo.FindEventByID(eid);
      if found.None? {
        return Fail(InputMismatchException("the eid does not exist"));
      }
      ghost var before := repo.calls;
      r := NotifyParticipants(repo, found.value, mailer);
      assert repo.calls == old(repo.calls) + ([EventLookup(eid)] + (repo.calls[|before|..]));
    }

    /**
     * The loop of execute over the event's participants: look each name up
     * and mail the user, stopping with NullPointerException at the first
     * name that is not found.
     */
    method NotifyParticipants(repo: DataRepository, e: Event, mailer: MailHelper) returns (r: Outcome<JavaException>)
      modifies repo, mailer
      ensures var names := e.participantsList;
        var k := FirstUnresolved(names, repo.users);
        && r == (if k < |names| then Fail(NullPointerException) else Pass)
        && repo.calls == old(repo.calls) + UserLookups(names, if k < |names| then k + 1 else k)
        && mailer.outbox == old(mailer.outbox) + MailsTo(e, repo.users, k)
    {
      var names := e.participantsList;
      var i := 0;
      while i < |names|
        invariant 0 <= i <= |names|
        invariant forall j :: 0 <= j < i ==> names[j] in repo.users
        invariant repo.calls == old(repo.calls) + UserLookups(names, i)
        invariant mailer.outbox == old(mailer.outbox) + MailsTo(e, repo.users, i)
      {
        UserLookupsStep(names, i);
        var user := repo.FindUserByName(names[i]);
        if user.None? {
          assert FirstUnresolved(names, repo.users) == i;
          return Fail(NullPointerException);
        }
        MailsToStep(e, repo.users, i);
        mailer.SendMail("reminder", "Upcoming event! " + user.value.username + e.eventName + "excited?", [user.value.email]);
        i := i + 1;
      }
      assert FirstUnresolved(names, repo.users) == |names|;
      r := Pass;
    }
  }
}
