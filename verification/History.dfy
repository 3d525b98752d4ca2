/** Runs of the platform: every interleaving of service calls, one call a step, and what each step does
    to the history the SLA clock is derived from. */
module History {
  import opened Wrappers
  import opened TicketEnums
  import opened Store
  import opened Tickets
  import opened SlaClock
  import Portal

  datatype Step =
    | AddMember(ws: WorkspaceId, user: UserId, at: int)
    | AddClient(client: ClientId, ws: WorkspaceId, at: int)
    | AddAccount(email: string, user: UserId, at: int)
    | NewTicket(ws: WorkspaceId, actor: UserId, client: ClientId, ticket: TicketId, priority: Priority, at: int)
    | Edit(ws: WorkspaceId, ticket: TicketId, change: Option<Priority>, at: int)
    | Move(ws: WorkspaceId, ticket: TicketId, target: Status, at: int)
    | AssignTo(ws: WorkspaceId, actor: UserId, ticket: TicketId, assignee: Option<UserId>, at: int)
    | NewConversation(ws: WorkspaceId, ticket: TicketId, conversation: ConversationId, channel: Channel, at: int)
    | NewMessage(ws: WorkspaceId, ticket: TicketId, conversation: ConversationId, message: MessageId,
                 actor: UserId, direction: Direction, body: string, at: int)
    | InPortal(step: Portal.Step)
    | SetPolicy(key: PolicyKey, first: int, resolution: int, warning: int, at: int)
    | ReadClock(ws: WorkspaceId, ticket: TicketId, at: int)
    | Tick(ws: WorkspaceId, at: int)

  function Time(s: Step): int {
    match s
    case InPortal(p) => p.at
    case _ => s.at
  }

  // What a step does to the service desk. Reading a clock and the scheduler's tick do nothing to it.
  function DeskEffect(desk: Desk, s: Step): Result<Desk, Error> {
    match s
    case AddMember(ws, user, _) => Success(desk.(members := desk.members + {(ws, user)}))
    case AddClient(client, ws, _) =>
      if client in desk.clients then Failure(Conflict)
      else Success(desk.(clients := desk.clients[client := Client(ws, true)]))
    case AddAccount(email, user, _) =>
      if email in desk.accounts then Failure(Conflict)
      else Success(desk.(accounts := desk.accounts[email := Account(user, true)]))
    case NewTicket(ws, actor, client, t, priority, at) => AfterCreate(desk, ws, actor, client, t, priority, at)
    case Edit(ws, t, change, at) => AfterUpdate(desk, ws, t, change, at)
    case Move(ws, t, target, at) => AfterTransition(desk, ws, t, target, at)
    case AssignTo(ws, actor, t, assignee, at) => AfterAssign(desk, ws, actor, t, assignee, at)
    case NewConversation(ws, t, id, channel, at) => AfterConversation(desk, ws, t, id, channel, at)
    case NewMessage(ws, t, conversation, m, actor, direction, body, at) =>
      AfterMessage(desk, ws, t, conversation, m, actor, direction, body, at)
    case InPortal(p) => Portal.Effect(desk, p)
    case SetPolicy(key, first, resolution, warning, at) =>
      (match AfterPolicy(Db(desk, map[], map[], multiset{}), key, first, resolution, warning, at)
       case Success(d) => Success(d.desk)
       case Failure(e) => Failure(e))
    case ReadClock(_, _, _) => Success(desk)
    case Tick(_, _) => Success(desk)
  }

  function Effect(db: Db, s: Step): Result<Db, Error> {
    match s
    case SetPolicy(key, first, resolution, warning, at) => AfterPolicy(db, key, first, resolution, warning, at)
    case ReadClock(ws, t, _) => ReadSla(db, ws, t)
    case Tick(ws, at) => Success(Evaluate(db, ws, at))
    case _ => OnDesk(db, DeskEffect(db.desk, s))
  }

  // The rows after a step; a call that raises changes nothing.
  function Apply(db: Db, s: Step): Db {
    match Effect(db, s)
    case Success(d) => d
    case Failure(_) => db
  }

  function ApplyDesk(desk: Desk, s: Step): Desk {
    match DeskEffect(desk, s)
    case Success(d) => d
    case Failure(_) => desk
  }

  function Run(steps: seq<Step>): Db {
    if steps == [] then EMPTY else Apply(Run(steps[..|steps| - 1]), steps[|steps| - 1])
  }

  // Timestamps do not decrease in the order the calls are serialized.
  predicate Monotone(steps: seq<Step>) {
    forall i, j :: 0 <= i < j < |steps| ==> Time(steps[i]) <= Time(steps[j])
  }

  predicate IsTick(s: Step) { s.Tick? || s.ReadClock? }

  predicate OnTicket(s: Step) { s.NewTicket? || s.Edit? || s.Move? || s.AssignTo? }

  function Erase(steps: seq<Step>): seq<Step> {
    if steps == [] then []
    else
      var rest, last := Erase(steps[..|steps| - 1]), steps[|steps| - 1];
      if IsTick(last) then rest else rest + [last]
  }

  // The desk of a step is its effect on the desk alone.
  lemma DeskOfApply(db: Db, s: Step)
    ensures Apply(db, s).desk == ApplyDesk(db.desk, s)
  {
    hide Alerts, FreshSla, Refreshed, Evaluated;
  }

  lemma TickIsApplied(db: Db, ws: WorkspaceId, now: int)
    ensures Apply(db, Tick(ws, now)) == Evaluate(db, ws, now)
  {
    hide Evaluate;
  }

  lemma ReadIsApplied(db: Db, ws: WorkspaceId, t: TicketId, now: int)
    ensures Apply(db, ReadClock(ws, t, now)) == match ReadSla(db, ws, t) case Success(d) => d case Failure(_) => db
  {
    hide ReadSla;
  }

  // Every other step leaves the operations layer alone, except that it may set a policy.
  lemma OtherIsApplied(db: Db, s: Step)
    requires !IsTick(s)
    ensures var e := Apply(db, s);
            e.slas == db.slas && e.notifications == db.notifications && db.policies.Keys <= e.policies.Keys
  {
    hide DeskEffect;
  }

  /** Ticks and clock reads leave no trace in the history: a run and the same run without them leave
      the same service desk. */
  lemma {:induction false} TicksLeaveNoTrace(steps: seq<Step>)
    ensures Run(steps).desk == Run(Erase(steps)).desk
  {
    if steps != [] {
      var front, last := steps[..|steps| - 1], steps[|steps| - 1];
      TicksLeaveNoTrace(front);
      DeskOfApply(Run(front), last);
      if !IsTick(last) {
        assert Erase(steps)[..|Erase(steps)| - 1] == Erase(front);
        DeskOfApply(Run(Erase(front)), last);
      }
    }
  }

  // ---- how a step changes the desk ---------------------------------------------------------------

  // At most one row is appended.
  predicate Appends<T(==)>(xs: seq<T>, ys: seq<T>) {
    ys == xs || (|ys| == |xs| + 1 && ys[..|xs|] == xs)
  }

  predicate KeepsTicket(a: Ticket, b: Ticket) {
    b.workspace == a.workspace && b.client == a.client && b.creator == a.creator && b.createdAt == a.createdAt
  }

  predicate NewThread(desk: Desk, d: Desk, c: Conversation) {
    !HasThread(desk.conversations, c.id) && InWorkspace(desk, c.workspace, c.ticket)
  }

  predicate NewEvent(desk: Desk, e: AuditEvent, now: int) {
    && e.at == now
    && (e.action == TicketStatusChanged ==>
          && e.resource.TicketResource? && InWorkspace(desk, e.workspace, e.resource.ticket)
          && e.metadata.Fields? && e.metadata.from.Some? && e.metadata.to.Some?)
  }

  // Tickets stay where they are, and every log grows by at most one row, dated now where rows are dated.
  predicate Grows(desk: Desk, d: Desk, now: int) {
    && (forall t :: t in desk.tickets ==> t in d.tickets && KeepsTicket(desk.tickets[t], d.tickets[t]))
    && Appends(desk.assignments, d.assignments)
    && Appends(desk.conversations, d.conversations)
    && (d.conversations == desk.conversations || NewThread(desk, d, d.conversations[|desk.conversations|]))
    && Appends(desk.messages, d.messages)
    && (d.messages == desk.messages
        || (d.messages[|desk.messages|].at == now
            && HasThread(d.conversations, d.messages[|desk.messages|].conversation)))
    && Appends(desk.audit, d.audit)
    && (d.audit == desk.audit || NewEvent(desk, d.audit[|desk.audit|], now))
  }

  lemma WritingGrows(desk: Desk, p: Portal.Step)
    requires p.NewMessage?
    ensures Grows(desk, Portal.Apply(desk, p), p.at)
  {
    if Portal.Effect(desk, p).Success? {
      Portal.FirstWebBelongs(desk.conversations, desk.links[p.link].workspace, p.ticket);
      var d := Portal.Apply(desk, p);
      if d.conversations != desk.conversations {
        assert d.conversations[|desk.conversations|] in d.conversations;
      }
    }
  }

  lemma LinkingGrows(desk: Desk, p: Portal.Step)
    requires !p.NewMessage?
    ensures Grows(desk, Portal.Apply(desk, p), p.at)
  {
  }

  lemma PortalGrows(desk: Desk, p: Portal.Step)
    ensures Grows(desk, Portal.Apply(desk, p), p.at)
  {
    hide *;
    if p.NewMessage? {
      WritingGrows(desk, p);
    } else {
      LinkingGrows(desk, p);
    }
  }

  lemma TicketStepGrows(desk: Desk, s: Step)
    requires OnTicket(s)
    ensures Grows(desk, ApplyDesk(desk, s), Time(s))
  {
  }

  lemma OtherStepGrows(desk: Desk, s: Step)
    requires !OnTicket(s) && !s.InPortal?
    ensures Grows(desk, ApplyDesk(desk, s), Time(s))
  {
  }

  lemma StepGrows(desk: Desk, s: Step)
    ensures Grows(desk, ApplyDesk(desk, s), Time(s))
  {
    if s.InPortal? {
      PortalGrows(desk, s.step);
    } else if OnTicket(s) {
      hide *;
      TicketStepGrows(desk, s);
    } else {
      hide *;
      OtherStepGrows(desk, s);
    }
  }

  // A step that is neither on a ticket nor in the portal leaves tickets and assignments alone, and logs
  // no change of status.
  predicate Bystands(desk: Desk, d: Desk) {
    && d.tickets == desk.tickets && d.assignments == desk.assignments && desk.members <= d.members
    && (d.audit != desk.audit ==>
          |d.audit| == |desk.audit| + 1 && d.audit[|desk.audit|].action != TicketStatusChanged)
  }

  lemma OtherStepBystands(desk: Desk, s: Step)
    requires !OnTicket(s) && !s.InPortal?
    ensures Bystands(desk, ApplyDesk(desk, s))
  {
  }
}
