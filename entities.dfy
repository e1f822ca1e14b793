/**
 * The collaborators of the reminder engine: the Event and User records, the
 * DataRepository that looks them up, and the MailHelper that sends mail.
 * The repository's contents are fixed; what the engine can observe is which
 * lookups it made, so the repository keeps a log of calls, as a recording
 * mock does. MailHelper keeps the mails handed to it, in order.
 */
module Entities {
  import opened Results
  import opened JavaLang
  import opened Instants

  datatype User = User(username: string, email: string)

  datatype Event = Event(
    eventID: Int32,
    eventName: string,
    organizer: string,
    date: Instant,
    participantsList: seq<string>)

  datatype RepositoryCall = EventLookup(id: Int32) | UserLookup(name: string)

  class DataRepository {
    /** The events by id; an id with no entry is one for which findEventByID returns null. */
    const events: map<Int32, Event>
    /** The users by name; a name with no entry is one for which findUserByName returns null. */
    const users: map<string, User>
    /** Every lookup made so far, oldest first. */
    var calls: seq<RepositoryCall>

    constructor (events: map<Int32, Event>, users: map<string, User>)
      ensures this.events == events && this.users == users && calls == []
    {
      this.events := events;
      this.users := users;
      calls := [];
    }

    method FindEventByID(id: Int32) returns (e: Option<Event>)
      modifies this
      ensures calls == old(calls) + [EventLookup(id)]
      ensures e == if id in events then Some(events[id]) else None
    {
      calls := calls + [EventLookup(id)];
      e := if id in events then Some(events[id]) else None;
    }

    method FindUserByName(name: string) returns (u: Option<User>)
      modifies this
      ensures calls == old(calls) + [UserLookup(name)]
      ensures u == if name in users then Some(users[name]) else None
    {
      calls := calls + [UserLookup(name)];
      u := if name in users then Some(users[name]) else None;
    }
  }

  datatype Mail = Mail(subject: string, body: string, recipients: seq<string>)

  class MailHelper {
    /** Every mail sent so far, oldest first. */
    var outbox: seq<Mail>

    constructor ()
      ensures outbox == []
    {
      outbox := [];
    }

    method SendMail(subject: string, body: string, recipients: seq<string>)
      modifies this
      ensures outbox == old(outbox) + [Mail(subject, body, recipients)]
    {
      outbox := outbox + [Mail(subject, body, recipients)];
    }
  }
}
