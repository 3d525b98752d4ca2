/** apps/api/app/services/ticket_service.py and the history-writing part of
    apps/api/app/services/communication_service.py. */
module Tickets {
  import opened Wrappers
  import opened TicketEnums
  import opened Store

  function AfterCreate(desk: Desk, ws: WorkspaceId, actor: UserId, client: ClientId, t: TicketId, priority: Priority,
                       now: int)
    : Result<Desk, Error>
  {
    if client !in desk.clients || desk.clients[client].workspace != ws then Failure(Invalid)
    else if t in desk.tickets then Failure(Conflict)
    else
      var d := desk.(tickets := desk.tickets[t := Ticket(ws, client, actor, None, New, priority, now)]);
      Success(Log(d, ws, TicketCreated, TicketResource(t), NO_FIELDS, now))
  }

  function AfterUpdate(desk: Desk, ws: WorkspaceId, t: TicketId, priority: Option<Priority>, now: int)
    : Result<Desk, Error>
  {
    if !InWorkspace(desk, ws, t) then Failure(NotFound)
    else
      var p := match priority case Some(p) => p case None => desk.tickets[t].priority;
      var d := desk.(tickets := desk.tickets[t := desk.tickets[t].(priority := p)]);
      Success(Log(d, ws, TicketUpdated, TicketResource(t), NO_FIELDS, now))
  }

  function AfterTransition(desk: Desk, ws: WorkspaceId, t: TicketId, target: Status, now: int): Result<Desk, Error> {
    if !InWorkspace(desk, ws, t) then Failure(NotFound)
    else if !IsTransitionAllowed(desk.tickets[t].status, target) then Failure(Invalid)
    else
      var previous := desk.tickets[t].status;
      var d := desk.(tickets := desk.tickets[t := desk.tickets[t].(status := target)]);
      Success(Log(d, ws, TicketStatusChanged, TicketResource(t), Fields(Some(previous), Some(target)), now))
  }

  function AfterAssign(desk: Desk, ws: WorkspaceId, actor: UserId, t: TicketId, assignee: Option<UserId>,
                       now: int): Result<Desk, Error>
  {
    if !InWorkspace(desk, ws, t) then Failure(NotFound)
    else if assignee.Some? && (ws, assignee.value) !in desk.members then Failure(Invalid)
    else
      var d := desk.(tickets := desk.tickets[t := desk.tickets[t].(assignee := assignee)],
                   assignments := desk.assignments + [Assignment(ws, t, assignee, actor)]);
      Success(Log(d, ws, TicketAssigned, TicketResource(t), NO_FIELDS, now))
  }

  predicate HasConversation(desk: Desk, ws: WorkspaceId, t: TicketId, conversation: ConversationId) {
    exists c :: c in desk.conversations && c.id == conversation && c.workspace == ws && c.ticket == t
  }

  function AfterConversation(desk: Desk, ws: WorkspaceId, t: TicketId, id: ConversationId, channel: Channel, now: int)
    : Result<Desk, Error>
  {
    if !InWorkspace(desk, ws, t) then Failure(NotFound)
    else if exists c :: c in desk.conversations && c.id == id then Failure(Conflict)
    else
      var d := desk.(conversations := desk.conversations + [Conversation(id, ws, t, channel)]);
      Success(Log(d, ws, ConversationCreated, OtherResource(id), NO_FIELDS, now))
  }

  // create_outbound_message and create_inbound_message differ in direction, author and audit action.
  function AfterMessage(desk: Desk, ws: WorkspaceId, t: TicketId, conversation: ConversationId, id: MessageId,
                         actor: UserId, direction: Direction, body: string, now: int): Result<Desk, Error>
  {
    if !InWorkspace(desk, ws, t) then Failure(NotFound)
    else if !HasConversation(desk, ws, t, conversation) then Failure(NotFound)
    else if exists m :: m in desk.messages && m.id == id then Failure(Conflict)
    else
      var author := if direction == Outbound then Some(actor) else None;
      var action := if direction == Outbound then MessageCreated else MessageReceived;
      var d := desk.(messages := desk.messages + [Message(id, ws, conversation, author, direction, body, now)]);
      Success(Log(d, ws, action, OtherResource(id), NO_FIELDS, now))
  }

  class TicketService {
    const db: Database

    constructor (db: Database)
      ensures this.db == db
    {
      this.db := db;
    }

    method Create(ws: WorkspaceId, actor: UserId, client: ClientId, t: TicketId, priority: Priority, now: int)
      returns (r: Outcome<Error>)
      modifies db
      ensures db.Performed(OnDesk(old(db.rows), AfterCreate(old(db.rows).desk, ws, actor, client, t, priority, now)),
                           old(db.rows), old(db.committed), r)
    {
      if client !in db.rows.desk.clients || db.rows.desk.clients[client].workspace != ws {
        return Fail(Invalid);
      }
      if t in db.rows.desk.tickets {
        return Fail(Conflict);
      }
      var ticket := Ticket(ws, client, actor, None, New, priority, now);
      db.rows := db.rows.(desk := db.rows.desk.(tickets := db.rows.desk.tickets[t := ticket]));
      db.Record(ws, TicketCreated, TicketResource(t), NO_FIELDS, now);
      db.Commit();
      r := Pass;
    }

    method Update(ws: WorkspaceId, t: TicketId, priority: Option<Priority>, now: int) returns (r: Outcome<Error>)
      modifies db
      ensures db.Performed(OnDesk(old(db.rows), AfterUpdate(old(db.rows).desk, ws, t, priority, now)),
                           old(db.rows), old(db.committed), r)
    {
      if !InWorkspace(db.rows.desk, ws, t) {
        return Fail(NotFound);
      }
      if priority.Some? {
        var ticket := db.rows.desk.tickets[t].(priority := priority.value);
        db.rows := db.rows.(desk := db.rows.desk.(tickets := db.rows.desk.tickets[t := ticket]));
      }
      assert db.rows.desk.tickets == AfterUpdate(old(db.rows).desk, ws, t, priority, now).value.tickets;
      db.Record(ws, TicketUpdated, TicketResource(t), NO_FIELDS, now);
      db.Commit();
      r := Pass;
    }

    method TransitionStatus(ws: WorkspaceId, t: TicketId, target: Status, now: int) returns (r: Outcome<Error>)
      modifies db
      ensures db.Performed(OnDesk(old(db.rows), AfterTransition(old(db.rows).desk, ws, t, target, now)),
                           old(db.rows), old(db.committed), r)
    {
      if !InWorkspace(db.rows.desk, ws, t) {
        return Fail(NotFound);
      }
      var previous := db.rows.desk.tickets[t].status;
      if !IsTransitionAllowed(previous, target) {
        return Fail(Invalid);
      }
      var ticket := db.rows.desk.tickets[t].(status := target);
      db.rows := db.rows.(desk := db.rows.desk.(tickets := db.rows.desk.tickets[t := ticket]));
      db.Record(ws, TicketStatusChanged, TicketResource(t), Fields(Some(previous), Some(target)), now);
      db.Commit();
      r := Pass;
    }

    method Assign(ws: WorkspaceId, actor: UserId, t: TicketId, assignee: Option<UserId>, now: int)
      returns (r: Outcome<Error>)
      modifies db
      ensures db.Performed(OnDesk(old(db.rows), AfterAssign(old(db.rows).desk, ws, actor, t, assignee, now)),
                           old(db.rows), old(db.committed), r)
    {
      if !InWorkspace(db.rows.desk, ws, t) {
        return Fail(NotFound);
      }
      if assignee.Some? && (ws, assignee.value) !in db.rows.desk.members {
        return Fail(Invalid);
      }
      var ticket, entry := db.rows.desk.tickets[t].(assignee := assignee), Assignment(ws, t, assignee, actor);
      db.rows := db.rows.(desk := db.rows.desk.(tickets := db.rows.desk.tickets[t := ticket]));
      db.rows := db.rows.(desk := db.rows.desk.(assignments := db.rows.desk.assignments + [entry]));
      db.Record(ws, TicketAssigned, TicketResource(t), NO_FIELDS, now);
      db.Commit();
      r := Pass;
    }
  }

  class CommunicationService {
    const db: Database

    constructor (db: Database)
      ensures this.db == db
    {
      this.db := db;
    }

    method CreateConversation(ws: WorkspaceId, t: TicketId, id: ConversationId, channel: Channel, now: int)
      returns (r: Outcome<Error>)
      modifies db
      ensures db.Performed(OnDesk(old(db.rows), AfterConversation(old(db.rows).desk, ws, t, id, channel, now)),
                           old(db.rows), old(db.committed), r)
    {
      if !InWorkspace(db.rows.desk, ws, t) {
        return Fail(NotFound);
      }
      if exists c :: c in db.rows.desk.conversations && c.id == id {
        return Fail(Conflict);
      }
      var conversation := Conversation(id, ws, t, channel);
      db.rows := db.rows.(desk := db.rows.desk.(conversations := db.rows.desk.conversations + [conversation]));
      db.Record(ws, ConversationCreated, OtherResource(id), NO_FIELDS, now);
      db.Commit();
      r := Pass;
    }

    method CreateMessage(ws: WorkspaceId, t: TicketId, conversation: ConversationId, id: MessageId, actor: UserId,
                         direction: Direction, body: string, now: int) returns (r: Outcome<Error>)
      modifies db
      ensures db.Performed(OnDesk(old(db.rows),
                                  AfterMessage(old(db.rows).desk, ws, t, conversation, id, actor, direction,
                                               body, now)),
                           old(db.rows), old(db.committed), r)
    {
      if !InWorkspace(db.rows.desk, ws, t) || !HasConversation(db.rows.desk, ws, t, conversation) {
        return Fail(NotFound);
      }
      if exists m :: m in db.rows.desk.messages && m.id == id {
        return Fail(Conflict);
      }
      var author := if direction == Outbound then Some(actor) else None;
      var action := if direction == Outbound then MessageCreated else MessageReceived;
      var message := Message(id, ws, conversation, author, direction, body, now);
      db.rows := db.rows.(desk := db.rows.desk.(messages := db.rows.desk.messages + [message]));
      db.Record(ws, action, OtherResource(id), NO_FIELDS, now);
      db.Commit();
      r := Pass;
    }
  }
}
