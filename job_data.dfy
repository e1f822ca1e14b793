/**
 * Quartz's JobDataMap as the reminder engine uses it: a mutable map from the
 * keys EventReminderJob declares to the values QuartzReminder puts there, with
 * the typed getters and casts EventReminderJob.execute applies to them.
 */
module JobData {
  import opened Results
  import opened JavaLang
  import opened Entities

  const EVENTNAME: string := "EVENTNAME"
  const COUNT: string := "COUNT"
  const REPO_USED: string := "REPO"
  const EVENT_ID: string := "eventID"

  /** The values the engine stores: boxed ints, strings and the repository handle. */
  datatype DataValue = IntValue(n: Int32) | StringValue(s: string) | RepoValue(repo: DataRepository)

  class JobDataMap {
    var entries: map<string, DataValue>

    constructor ()
      ensures entries == map[]
    {
      entries := map[];
    }

    /**
     * A new map with the same entries. Quartz's job store keeps a JobDetail
     * and hands each run a copy of its data map; EventReminderJob is not
     * marked to persist its data after a run, so the copy is not stored back.
     */
    method Copy() returns (m: JobDataMap)
      ensures fresh(m) && m.entries == entries
    {
      m := new JobDataMap();
      m.entries := entries;
    }

    method Put(key: string, value: DataValue)
      modifies this
      ensures entries == old(entries)[key := value]
    {
      entries := entries[key := value];
    }
  }

  /** JobDataMap.get: the entry, or None where Java returns null. */
  function Get(entries: map<string, DataValue>, key: string): Option<DataValue> {
    if key in entries then Some(entries[key]) else None
  }

  /** The repository an entry map refers to under REPO_USED, as a frame. */
  function RepositoryIn(entries: map<string, DataValue>): set<DataRepository> {
    if REPO_USED in entries && entries[REPO_USED].RepoValue? then {entries[REPO_USED].repo} else {}
  }

  /** The cast `(DataRepository) obj`: null passes as null, anything else but a repository throws. */
  function AsRepository(v: Option<DataValue>): (r: Result<DataRepository?, JavaException>)
    ensures r.Success? <==> (v.None? || v.value.RepoValue?)
    ensures r.Success? && r.value != null ==> v == Some(RepoValue(r.value))
    ensures r.Success? && r.value == null ==> v == None
  {
    match v
    case None => Success(null)
    case Some(RepoValue(repo)) => Success(repo)
    case Some(_) => Failure(ClassCastException)
  }

  /** JobDataMap.getString: the cast `(String) get(key)`. */
  function AsString(v: Option<DataValue>): (r: Result<Option<string>, JavaException>)
    ensures r.Success? <==> (v.None? || v.value.StringValue?)
    ensures r.Success? ==> (r.value.Some? <==> v.Some?) && (r.value.Some? ==> v == Some(StringValue(r.value.value)))
  {
    match v
    case None => Success(None)
    case Some(StringValue(s)) => Success(Some(s))
    case Some(_) => Failure(ClassCastException)
  }

  /**
   * JobDataMap.getInt: an Integer is returned as it is, a String is parsed
   * with Integer.parseInt; null, a string that does not parse, or any other
   * value ends in ClassCastException.
   */
  function AsInt(v: Option<DataValue>): (r: Result<Int32, JavaException>)
    ensures v.Some? && v.value.IntValue? ==> r == Success(v.value.n)
    ensures v.Some? && v.value.StringValue? ==>
      (r.Success? <==> ParseInt(v.value.s).Some?) && (r.Success? ==> r.value == ParseInt(v.value.s).value)
    ensures r.Success? ==> v.Some? && (v.value.IntValue? || v.value.StringValue?)
    ensures r.Failure? ==> r.error == ClassCastException
  {
    match v
    case Some(IntValue(n)) => Success(n)
    case Some(StringValue(s)) =>
      (match ParseInt(s)
       case Some(n) => Success(n)
       case None => Failure(ClassCastException))
    case _ => Failure(ClassCastException)
  }

  /** `((Number) obj).intValue()`: null throws NullPointerException, a non-number ClassCastException. */
  function AsNumberInt(v: Option<DataValue>): (r: Result<Int32, JavaException>)
    ensures r.Success? <==> (v.Some? && v.value.IntValue?)
    ensures r.Success? ==> r.value == v.value.n
    ensures v == None ==> r == Failure(NullPointerException)
    ensures v.Some? && !v.value.IntValue? ==> r == Failure(ClassCastException)
  {
    match v
    case None => Failure(NullPointerException)
    case Some(IntValue(n)) => Success(n)
    case Some(_) => Failure(ClassCastException)
  }
}
