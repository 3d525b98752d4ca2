/** The rows the services read and write, and the session they do it through.

    A table with a primary key is a map; a table that is only appended to and read in creation order
    is a sequence; the notification table, which no service reads back in order, is a multiset.
    Identifiers are opaque, so they are numbers. Instants are whole microseconds. */
module Store {
  import opened Wrappers
  import opened TicketEnums

  type WorkspaceId = nat
  type UserId = nat
  type ClientId = nat
  type LinkId = nat
  type TicketId = nat
  type ConversationId = nat
  type MessageId = nat

  const MINUTE: int := 60_000_000

  datatype Error = NotFound | Invalid | Conflict | Crashed

  datatype Account = Account(user: UserId, active: bool)
  datatype Client = Client(workspace: WorkspaceId, active: bool)
  datatype Link = Link(workspace: WorkspaceId, client: ClientId, user: UserId)

  datatype Ticket = Ticket(workspace: WorkspaceId, client: ClientId, creator: UserId,
                           assignee: Option<UserId>, status: Status, priority: Priority, createdAt: int)
  datatype Assignment = Assignment(workspace: WorkspaceId, ticket: TicketId, assignee: Option<UserId>,
                                   assignedBy: UserId)

  datatype Channel = Web | Email | Chat | Phone | Api
  datatype Direction = Inbound | Outbound
  datatype Conversation = Conversation(id: ConversationId, workspace: WorkspaceId, ticket: TicketId, channel: Channel)
  datatype Message = Message(id: MessageId, workspace: WorkspaceId, conversation: ConversationId,
                             author: Option<UserId>, direction: Direction, body: string, at: int)

  datatype Action = TicketCreated | TicketUpdated | TicketStatusChanged | TicketAssigned
                  | ConversationCreated | MessageCreated | MessageReceived | PolicyUpdated
                  | LinkCreated | PortalTicketCreated | PortalMessageCreated
  datatype Resource = TicketResource(ticket: TicketId) | OtherResource(id: nat)
  // The JSON text of an audit row: either it does not parse, or it is an object of which the
  // services only ever look at "from" and "to".
  datatype Metadata = Malformed | Fields(from: Option<Status>, to: Option<Status>)
  datatype AuditEvent = AuditEvent(workspace: WorkspaceId, action: Action, resource: Resource,
                                   metadata: Metadata, at: int)

  datatype PolicyKey = PolicyKey(workspace: WorkspaceId, priority: Priority)
  datatype Policy = Policy(firstResponseMinutes: int, resolutionMinutes: int, warningMinutes: int, active: bool)

  // One of the two clocks of a ticket SLA: its deadline, when it was met, and its two flags.
  datatype Track = Track(dueAt: int, metAt: Option<int>, warningSent: bool, breached: bool)
  datatype TicketSla = TicketSla(workspace: WorkspaceId, policy: PolicyKey, response: Track, resolution: Track)

  datatype Objective = FirstResponse | Resolution
  datatype NotificationType = SlaWarning | SlaBreached
  datatype Notification = Notification(workspace: WorkspaceId, user: UserId, ticket: TicketId,
                                       kind: NotificationType, objective: Objective)

  // The service desk: everything but the operations layer, which only reads it and logs to it.
  datatype Desk = Desk(
    members: set<(WorkspaceId, UserId)>,
    accounts: map<string, Account>,
    clients: map<ClientId, Client>,
    links: map<LinkId, Link>,
    tickets: map<TicketId, Ticket>,
    assignments: seq<Assignment>,
    conversations: seq<Conversation>,
    messages: seq<Message>,
    audit: seq<AuditEvent>)

  datatype Db = Db(
    desk: Desk,
    policies: map<PolicyKey, Policy>,
    slas: map<TicketId, TicketSla>,
    notifications: multiset<Notification>)

  const EMPTY: Db := Db(Desk({}, map[], map[], map[], map[], [], [], [], []), map[], map[], multiset{})

  const NO_FIELDS: Metadata := Fields(None, None)

  function Log(desk: Desk, ws: WorkspaceId, action: Action, resource: Resource, metadata: Metadata, now: int): Desk {
    desk.(audit := desk.audit + [AuditEvent(ws, action, resource, metadata, now)])
  }

  predicate InWorkspace(desk: Desk, ws: WorkspaceId, t: TicketId) {
    t in desk.tickets && desk.tickets[t].workspace == ws
  }

  // The conversations of a ticket.
  function Threads(conversations: seq<Conversation>, ws: WorkspaceId, t: TicketId): set<ConversationId> {
    set c | c in conversations && c.workspace == ws && c.ticket == t :: c.id
  }

  predicate HasThread(conversations: seq<Conversation>, id: ConversationId) {
    exists c :: c in conversations && c.id == id
  }

  // Every message has its conversation.
  predicate Threaded(desk: Desk) {
    forall m :: m in desk.messages ==> HasThread(desk.conversations, m.conversation)
  }

  // An operation on the service desk leaves the operations layer alone.
  function OnDesk(db: Db, r: Result<Desk, Error>): Result<Db, Error> {
    match r
    case Success(desk) => Success(db.(desk := desk))
    case Failure(e) => Failure(e)
  }

  /** A database session: the rows as this session sees them, and the rows as of the last commit. */
  class Database {
    var rows: Db
    var committed: Db

    constructor ()
      ensures rows == committed == EMPTY
    {
      rows, committed := EMPTY, EMPTY;
    }

    // What a service call leaves behind: its committed result, or on an exception nothing at all.
    predicate Performed(spec: Result<Db, Error>, before: Db, saved: Db, r: Outcome<Error>)
      reads this
    {
      && r == OutcomeOf(spec)
      && match spec
         case Success(d) => rows == d && committed == d
         case Failure(_) => rows == before && committed == saved
    }

    method Commit()
      modifies this`committed
      ensures committed == rows
    {
      committed := rows;
    }

    method Rollback()
      modifies this`rows
      ensures rows == committed
    {
      rows := committed;
    }

    method Record(ws: WorkspaceId, action: Action, resource: Resource, metadata: Metadata, now: int)
      modifies this`rows
      ensures rows == old(rows).(desk := Log(old(rows).desk, ws, action, resource, metadata, now))
    {
      rows := rows.(desk := rows.desk.(audit := rows.desk.audit + [AuditEvent(ws, action, resource, metadata, now)]));
    }
  }
}
