/** The service desk as its calls: which calls are refused and why, and what a run of them leaves of a ticket
    and in each log, as functions of the calls alone. */
module Ledger {
  import opened Wrappers
  import opened TicketEnums
  import opened Store
  import opened History
  import Tickets
  import SlaClock
  import Portal

  // ---- which calls are refused -------------------------------------------------------------------

  predicate OwnLink(desk: Desk, user: UserId, link: LinkId) {
    link in desk.links && desk.links[link].user == user
  }

  // The ticket is one of the client that the link is to.
  predicate OwnTicket(desk: Desk, link: LinkId, t: TicketId)
    requires link in desk.links
  {
    && t in desk.tickets
    && desk.tickets[t].workspace == desk.links[link].workspace && desk.tickets[t].client == desk.links[link].client
  }

  predicate ClientOf(desk: Desk, ws: WorkspaceId, client: ClientId) {
    client in desk.clients && desk.clients[client].workspace == ws
  }

  // What the call names is not there, or not the caller's.
  predicate Missing(desk: Desk, s: Step) {
    match s
    case Edit(ws, t, _, _) => !InWorkspace(desk, ws, t)
    case Move(ws, t, _, _) => !InWorkspace(desk, ws, t)
    case AssignTo(ws, _, t, _, _) => !InWorkspace(desk, ws, t)
    case NewConversation(ws, t, _, _, _) => !InWorkspace(desk, ws, t)
    case NewMessage(ws, t, id, _, _, _, _, _) =>
      !InWorkspace(desk, ws, t) || id !in Threads(desk.conversations, ws, t)
    case InPortal(LinkUser(ws, client, _, _, _)) => !ClientOf(desk, ws, client)
    case InPortal(NewTicket(user, link, _, _, _)) => !OwnLink(desk, user, link)
    case InPortal(NewMessage(user, link, t, _, _, _, _)) => !OwnLink(desk, user, link) || !OwnTicket(desk, link, t)
    case _ => false
  }

  predicate Linked(desk: Desk, ws: WorkspaceId, client: ClientId, user: UserId) {
    exists l :: l in desk.links && desk.links[l] == Link(ws, client, user)
  }

  // A link of the user or of the client, in this workspace.
  predicate LinkedAtAll(desk: Desk, ws: WorkspaceId, client: ClientId, user: UserId) {
    exists l :: l in desk.links && desk.links[l].workspace == ws
                && (desk.links[l].user == user || desk.links[l].client == client)
  }

  // The state machine, the workspace's membership, the links there are, or the policy itself forbids it.
  predicate Forbidden(desk: Desk, s: Step) {
    match s
    case NewTicket(ws, _, client, _, _, _) => !ClientOf(desk, ws, client)
    case Move(_, t, target, _) => t in desk.tickets && !Edge(desk.tickets[t].status, target)
    case AssignTo(ws, _, _, assignee, _) => assignee.Some? && (ws, assignee.value) !in desk.members
    case InPortal(LinkUser(ws, client, email, _, _)) =>
      || email !in desk.accounts || !desk.accounts[email].active
      || var user := desk.accounts[email].user;
         LinkedAtAll(desk, ws, client, user) && !Linked(desk, ws, client, user)
    case SetPolicy(_, first, resolution, warning, _) => warning >= first || warning >= resolution
    case _ => false
  }

  // An identifier that the call would give out is taken.
  predicate Taken(desk: Desk, s: Step) {
    match s
    case AddClient(client, _, _) => client in desk.clients
    case AddAccount(email, _, _) => email in desk.accounts
    case NewTicket(_, _, _, t, _, _) => t in desk.tickets
    case NewConversation(_, _, id, _, _) => HasThread(desk.conversations, id)
    case NewMessage(_, _, _, m, _, _, _, _) => exists x :: x in desk.messages && x.id == m
    case InPortal(LinkUser(ws, client, email, link, _)) =>
      link in desk.links && email in desk.accounts && !Linked(desk, ws, client, desk.accounts[email].user)
    case InPortal(NewTicket(_, _, t, _, _)) => t in desk.tickets
    case InPortal(NewMessage(_, link, t, thread, m, _, _)) =>
      || (exists x :: x in desk.messages && x.id == m)
      || (link in desk.links && !Portal.HasWeb(desk.conversations, desk.links[link].workspace, t)
          && HasThread(desk.conversations, thread))
    case _ => false
  }

  function Refusal(desk: Desk, s: Step): Option<Error> {
    if Missing(desk, s) then Some(NotFound)
    else if Forbidden(desk, s) then Some(Invalid)
    else if Taken(desk, s) then Some(Conflict)
    else None
  }

  lemma TicketCallRefused(desk: Desk, s: Step)
    requires OnTicket(s)
    ensures DeskEffect(desk, s).Success? <==> Refusal(desk, s).None?
    ensures Refusal(desk, s).Some? ==> DeskEffect(desk, s) == Failure(Refusal(desk, s).value)
  {
    if s.Move? && s.ticket in desk.tickets {
      EdgesFollowRules(desk.tickets[s.ticket].status, s.target);
    }
    hide Edge, AllowedTargets;
  }

  lemma PortalCallRefused(desk: Desk, p: Portal.Step)
    ensures DeskEffect(desk, InPortal(p)).Success? <==> Refusal(desk, InPortal(p)).None?
    ensures Refusal(desk, InPortal(p)).Some? ==>
              DeskEffect(desk, InPortal(p)) == Failure(Refusal(desk, InPortal(p)).value)
  {
    match p {
      case LinkUser(ws, client, email, _, _) =>
        if email in desk.accounts {
          var user := desk.accounts[email].user;
          assert LinkedAtAll(desk, ws, client, user) <==> Portal.Existing(desk, ws, client, user) != {} by {
            if l :| l in desk.links && desk.links[l].workspace == ws
                    && (desk.links[l].user == user || desk.links[l].client == client) {
              assert l in Portal.Existing(desk, ws, client, user);
            }
          }
          hide Portal.Existing;
        }
      case NewTicket(_, _, _, _, _) =>
      case NewMessage(_, link, t, _, _, _, _) =>
        if link in desk.links {
          Portal.FirstWebIsOldest(desk.conversations, desk.links[link].workspace, t);
        }
        hide Portal.FirstWeb, Portal.HasWeb;
    }
  }

  lemma OtherCallRefused(desk: Desk, s: Step)
    requires !OnTicket(s) && !s.InPortal?
    ensures DeskEffect(desk, s).Success? <==> Refusal(desk, s).None?
    ensures Refusal(desk, s).Some? ==> DeskEffect(desk, s) == Failure(Refusal(desk, s).value)
  {
  }

  /** Every call is refused for the first of three reasons, and accepted when there is none: what it names is
      not there, a rule forbids it, or an identifier is taken. */
  lemma RefusedFor(desk: Desk, s: Step)
    ensures DeskEffect(desk, s).Success? <==> Refusal(desk, s).None?
    ensures Refusal(desk, s).Some? ==> DeskEffect(desk, s) == Failure(Refusal(desk, s).value)
  {
    hide *;
    if OnTicket(s) {
      TicketCallRefused(desk, s);
    } else if s.InPortal? {
      PortalCallRefused(desk, s.step);
    } else {
      OtherCallRefused(desk, s);
    }
  }

  // ---- a ticket is its calls ---------------------------------------------------------------------

  // The ticket t that a call opens.
  function Opened(desk: Desk, s: Step, t: TicketId): Option<Ticket> {
    match s
    case NewTicket(ws, actor, client, id, priority, at) =>
      if id == t && ClientOf(desk, ws, client) then Some(Ticket(ws, client, actor, None, New, priority, at)) else None
    case InPortal(NewTicket(user, link, id, priority, at)) =>
      if id == t && OwnLink(desk, user, link)
      then Some(Ticket(desk.links[link].workspace, desk.links[link].client, user, None, New, priority, at))
      else None
    case _ => None
  }

  // What a later call makes of it.
  function Changed(desk: Desk, s: Step, t: TicketId, ticket: Ticket): Ticket {
    match s
    case Edit(ws, id, change, _) =>
      if id == t && ws == ticket.workspace && change.Some? then ticket.(priority := change.value) else ticket
    case Move(ws, id, target, _) =>
      if id == t && ws == ticket.workspace && Edge(ticket.status, target) then ticket.(status := target) else ticket
    case AssignTo(ws, _, id, assignee, _) =>
      if id == t && ws == ticket.workspace && (assignee.None? || (ws, assignee.value) in desk.members)
      then ticket.(assignee := assignee) else ticket
    case _ => ticket
  }

  // Ticket t by the calls of a run: opened by the first that can, changed by those that follow.
  function TicketBy(steps: seq<Step>, t: TicketId): Option<Ticket> {
    if steps == [] then None
    else
      var front, last := steps[..|steps| - 1], steps[|steps| - 1];
      match TicketBy(front, t)
      case None => Opened(Run(front).desk, last, t)
      case Some(ticket) => Some(Changed(Run(front).desk, last, t, ticket))
  }

  // What a step does to ticket t.
  function TicketNext(desk: Desk, s: Step, t: TicketId): Option<Ticket> {
    if t in desk.tickets then Some(Changed(desk, s, t, desk.tickets[t])) else Opened(desk, s, t)
  }

  predicate HoldsTicket(desk: Desk, t: TicketId, ticket: Option<Ticket>) {
    if t in desk.tickets then ticket == Some(desk.tickets[t]) else ticket == None
  }

  lemma TicketCallMeans(desk: Desk, s: Step, t: TicketId)
    requires OnTicket(s)
    ensures HoldsTicket(ApplyDesk(desk, s), t, TicketNext(desk, s, t))
  {
    if s.Move? && s.ticket in desk.tickets {
      EdgesFollowRules(desk.tickets[s.ticket].status, s.target);
    }
    hide Edge, AllowedTargets;
  }

  lemma PortalCallMeans(desk: Desk, p: Portal.Step, t: TicketId)
    ensures HoldsTicket(Portal.Apply(desk, p), t, TicketNext(desk, InPortal(p), t))
  {
    hide Portal.FirstWeb, Portal.Existing;
  }

  lemma StepMeans(desk: Desk, s: Step, t: TicketId)
    ensures HoldsTicket(ApplyDesk(desk, s), t, TicketNext(desk, s, t))
  {
    if OnTicket(s) {
      hide *;
      TicketCallMeans(desk, s, t);
    } else if s.InPortal? {
      PortalCallMeans(desk, s.step, t);
      hide TicketNext, Portal.Apply;
    } else {
      OtherStepBystands(desk, s);
      hide ApplyDesk;
    }
  }

  /** A stored ticket is what its own calls make of it and nothing else does: the call that opened it gives
      workspace, client, creator, priority and creation time, and of the accepted calls on it the last edit,
      transition and assignment give priority, status and assignee. */
  lemma {:induction false} TicketIsItsCalls(steps: seq<Step>, t: TicketId)
    ensures t in Run(steps).desk.tickets <==> TicketBy(steps, t).Some?
    ensures t in Run(steps).desk.tickets ==> Run(steps).desk.tickets[t] == TicketBy(steps, t).value
  {
    if steps != [] {
      var front, last := steps[..|steps| - 1], steps[|steps| - 1];
      TicketIsItsCalls(front, t);
      DeskOfApply(Run(front), last);
      StepMeans(Run(front).desk, last, t);
      hide Apply, ApplyDesk, Opened, Changed;
    }
  }

  // Step k opens ticket t.
  predicate Opens(steps: seq<Step>, k: nat, t: TicketId) {
    && k < |steps|
    && t !in Run(steps[..k]).desk.tickets
    && Opened(Run(steps[..k]).desk, steps[k], t).Some?
  }

  lemma OpenedIsNew(desk: Desk, s: Step, t: TicketId)
    requires Opened(desk, s, t).Some?
    ensures var ticket := Opened(desk, s, t).value;
            ticket.createdAt == Time(s) && ticket.status == New && ticket.assignee == None
  {
  }

  lemma ChangeKeepsTicket(desk: Desk, s: Step, t: TicketId, ticket: Ticket)
    ensures KeepsTicket(ticket, Changed(desk, s, t, ticket))
  {
  }

  lemma KeptOn(a: Ticket, b: Ticket, c: Ticket)
    requires KeepsTicket(a, b) && KeepsTicket(b, c)
    ensures KeepsTicket(a, c)
  {
  }

  lemma KeptAsIs(a: Ticket)
    ensures KeepsTicket(a, a)
  {
  }

  /** Every ticket was opened by one call of the run, new, unassigned, for the workspace, client, creator and
      priority of that call, and its creation time is the time of that call. */
  lemma {:induction false} EveryTicketWasOpened(steps: seq<Step>, t: TicketId) returns (k: nat)
    requires t in Run(steps).desk.tickets
    ensures Opens(steps, k, t)
    ensures KeepsTicket(Opened(Run(steps[..k]).desk, steps[k], t).value, Run(steps).desk.tickets[t])
    ensures Run(steps).desk.tickets[t].createdAt == Time(steps[k])
  {
    hide Run, Opened, Changed, KeepsTicket;
    TicketIsItsCalls(steps, t);
    var n := |steps| - 1;
    var front, last := steps[..n], steps[n];
    TicketIsItsCalls(front, t);
    if t in Run(front).desk.tickets {
      k := EveryTicketWasOpened(front, t);
      assert front[..k] == steps[..k];
      ChangeKeepsTicket(Run(front).desk, last, t, Run(front).desk.tickets[t]);
      KeptOn(Opened(Run(steps[..k]).desk, steps[k], t).value, Run(front).desk.tickets[t], Run(steps).desk.tickets[t]);
    } else {
      k := n;
      KeptAsIs(Run(steps).desk.tickets[t]);
    }
    OpenedIsNew(Run(steps[..k]).desk, steps[k], t);
    SameCreation(Opened(Run(steps[..k]).desk, steps[k], t).value, Run(steps).desk.tickets[t]);
  }

  lemma SameCreation(a: Ticket, b: Ticket)
    requires KeepsTicket(a, b)
    ensures b.createdAt == a.createdAt
  {
  }

  // ---- the logs are the calls --------------------------------------------------------------------

  // What a call writes to each log.
  datatype Entry = Entry(assignments: seq<Assignment>, conversations: seq<Conversation>, messages: seq<Message>,
                         audit: seq<AuditEvent>)

  const NO_ENTRY: Entry := Entry([], [], [], [])

  function Audited(ws: WorkspaceId, action: Action, resource: Resource, now: int): Entry {
    NO_ENTRY.(audit := [AuditEvent(ws, action, resource, NO_FIELDS, now)])
  }

  // The conversation a client's message goes to, and whether it is made for it.
  function ThreadFor(desk: Desk, ws: WorkspaceId, t: TicketId, spare: ConversationId)
    : (ConversationId, seq<Conversation>)
  {
    match Portal.FirstWeb(desk.conversations, ws, t)
    case Some(c) => (c, [])
    case None => (spare, [Conversation(spare, ws, t, Web)])
  }

  // What an accepted call writes. Each writes one row to the audit trail, naming what was done to which ticket
  // or other thing, except that a link found again leaves no trace; only a transition records from where to where.
  function Written(desk: Desk, s: Step): Entry {
    match s
    case NewTicket(ws, _, _, t, _, now) => Audited(ws, TicketCreated, TicketResource(t), now)
    case Edit(ws, t, _, now) => Audited(ws, TicketUpdated, TicketResource(t), now)
    case Move(ws, t, target, now) =>
      var from := if t in desk.tickets then Some(desk.tickets[t].status) else None;
      NO_ENTRY.(audit :=
        [AuditEvent(ws, TicketStatusChanged, TicketResource(t), Fields(from, Some(target)), now)])
    case AssignTo(ws, actor, t, assignee, now) =>
      Audited(ws, TicketAssigned, TicketResource(t), now).(assignments := [Assignment(ws, t, assignee, actor)])
    case NewConversation(ws, t, id, channel, now) =>
      Audited(ws, ConversationCreated, OtherResource(id), now).(conversations := [Conversation(id, ws, t, channel)])
    case NewMessage(ws, _, id, m, actor, Outbound, body, now) =>
      Audited(ws, MessageCreated, OtherResource(m), now)
      .(messages := [Message(m, ws, id, Some(actor), Outbound, body, now)])
    case NewMessage(ws, _, id, m, _, Inbound, body, now) =>
      Audited(ws, MessageReceived, OtherResource(m), now)
      .(messages := [Message(m, ws, id, None, Inbound, body, now)])
    case InPortal(LinkUser(ws, client, email, link, now)) =>
      if email in desk.accounts && Linked(desk, ws, client, desk.accounts[email].user) then NO_ENTRY
      else Audited(ws, LinkCreated, OtherResource(link), now)
    case InPortal(NewTicket(_, link, t, _, now)) =>
      if link !in desk.links then NO_ENTRY
      else Audited(desk.links[link].workspace, PortalTicketCreated, TicketResource(t), now)
    case InPortal(NewMessage(user, link, t, spare, m, body, now)) =>
      if link !in desk.links then NO_ENTRY
      else
        var ws := desk.links[link].workspace;
        var (c, made) := ThreadFor(desk, ws, t, spare);
        Audited(ws, PortalMessageCreated, OtherResource(m), now)
        .(conversations := made, messages := [Message(m, ws, c, Some(user), Inbound, body, now)])
    case SetPolicy(key, _, _, _, now) => Audited(key.workspace, PolicyUpdated, OtherResource(0), now)
    case _ => NO_ENTRY
  }

  function Plus(a: Entry, b: Entry): Entry {
    Entry(a.assignments + b.assignments, a.conversations + b.conversations, a.messages + b.messages, a.audit + b.audit)
  }

  // The logs by the calls of a run: what the accepted ones wrote, in order.
  function LogsBy(steps: seq<Step>): Entry {
    if steps == [] then NO_ENTRY
    else
      var front, last := steps[..|steps| - 1], steps[|steps| - 1];
      var desk := Run(front).desk;
      if Refusal(desk, last).Some? then LogsBy(front) else Plus(LogsBy(front), Written(desk, last))
  }

  function LogsOf(desk: Desk): Entry {
    Entry(desk.assignments, desk.conversations, desk.messages, desk.audit)
  }

  lemma TicketCallWrites(desk: Desk, s: Step)
    requires OnTicket(s) && DeskEffect(desk, s).Success?
    ensures LogsOf(ApplyDesk(desk, s)) == Plus(LogsOf(desk), Written(desk, s))
  {
    hide Portal.FirstWeb, Linked;
  }

  lemma PortalCallWrites(desk: Desk, p: Portal.Step)
    requires DeskEffect(desk, InPortal(p)).Success?
    ensures LogsOf(Portal.Apply(desk, p)) == Plus(LogsOf(desk), Written(desk, InPortal(p)))
  {
    hide Portal.FirstWeb, Portal.Existing;
  }

  lemma OtherCallWrites(desk: Desk, s: Step)
    requires !OnTicket(s) && !s.InPortal? && DeskEffect(desk, s).Success?
    ensures LogsOf(ApplyDesk(desk, s)) == Plus(LogsOf(desk), Written(desk, s))
  {
    hide Portal.FirstWeb, Linked;
  }

  lemma StepWrites(desk: Desk, s: Step)
    ensures LogsOf(ApplyDesk(desk, s))
            == if Refusal(desk, s).Some? then LogsOf(desk) else Plus(LogsOf(desk), Written(desk, s))
  {
    RefusedFor(desk, s);
    hide Refusal, Written, LogsOf, Plus;
    if DeskEffect(desk, s).Success? {
      hide *;
      if OnTicket(s) {
        TicketCallWrites(desk, s);
      } else if s.InPortal? {
        PortalIsApplied(desk, s.step);
        PortalCallWrites(desk, s.step);
      } else {
        OtherCallWrites(desk, s);
      }
    }
  }

  lemma PortalIsApplied(desk: Desk, p: Portal.Step)
    ensures ApplyDesk(desk, InPortal(p)) == Portal.Apply(desk, p)
  {
    hide Portal.Effect;
  }

  /** The audit trail is the list of the accepted calls, none missing and none made up, and so are the
      assignment log, the conversations and the messages, as the calls gave them. */
  lemma {:induction false} LogsAreTheCalls(steps: seq<Step>)
    ensures LogsOf(Run(steps).desk) == LogsBy(steps)
  {
    if steps != [] {
      var front, last := steps[..|steps| - 1], steps[|steps| - 1];
      LogsAreTheCalls(front);
      DeskOfApply(Run(front), last);
      StepWrites(Run(front).desk, last);
      hide Apply, ApplyDesk, Refusal, Written, Plus, LogsOf;
    }
  }

  // ---- what the client sees of it ----------------------------------------------------------------

  /** A message that an operator writes or takes down in a conversation of a ticket is from then on the last
      of those that every user linked to the ticket's client lists, and the messages before it stay. */
  lemma OperatorMessageShows(desk: Desk, ws: WorkspaceId, t: TicketId, conversation: ConversationId, m: MessageId,
                             actor: UserId, direction: Direction, body: string, now: int, user: UserId, link: LinkId)
    requires Tickets.AfterMessage(desk, ws, t, conversation, m, actor, direction, body, now).Success?
    requires OwnLink(desk, user, link) && OwnTicket(desk, link, t)
    ensures var d := Tickets.AfterMessage(desk, ws, t, conversation, m, actor, direction, body, now).value;
            var author := if direction == Outbound then Some(actor) else None;
            && Portal.ListMessages(desk, user, link, t).Success?
            && Portal.ListMessages(d, user, link, t)
               == Success(Portal.ListMessages(desk, user, link, t).value
                          + [Message(m, ws, conversation, author, direction, body, now)])
  {
    var d := Tickets.AfterMessage(desk, ws, t, conversation, m, actor, direction, body, now).value;
    assert d.messages[..|d.messages| - 1] == desk.messages;
    assert Portal.TicketsOf(d, d.links[link]) == Portal.TicketsOf(desk, desk.links[link]);
    assert conversation in Threads(d.conversations, ws, t);
  }
}
