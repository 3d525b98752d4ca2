/** The client portal of apps/api/app/services/portal_service.py: links between users and clients, what
    a link lets its user read, and the two operations it lets its user perform. */
module Portal {
  import opened Wrappers
  import opened TicketEnums
  import opened Store

  // ---- reads ------------------------------------------------------------------------------------

  function FindLink(desk: Desk, user: UserId, id: LinkId): Result<Link, Error> {
    if id in desk.links && desk.links[id].user == user then Success(desk.links[id]) else Failure(NotFound)
  }

  // accounts: the user's links to clients that are active.
  function Accounts(desk: Desk, user: UserId): map<LinkId, Link> {
    map l | l in desk.links && desk.links[l].user == user
            && desk.links[l].client in desk.clients && desk.clients[desk.links[l].client].active :: desk.links[l]
  }

  predicate Owns(link: Link, ticket: Ticket) {
    ticket.workspace == link.workspace && ticket.client == link.client
  }

  function TicketsOf(desk: Desk, link: Link): map<TicketId, Ticket> {
    map t | t in desk.tickets && Owns(link, desk.tickets[t]) :: desk.tickets[t]
  }

  function ListTickets(desk: Desk, user: UserId, id: LinkId): Result<map<TicketId, Ticket>, Error> {
    match FindLink(desk, user, id)
    case Failure(e) => Failure(e)
    case Success(link) => Success(TicketsOf(desk, link))
  }

  // The messages of those conversations, in creation order.
  function InThreads(messages: seq<Message>, ws: WorkspaceId, threads: set<ConversationId>): seq<Message> {
    if messages == [] then []
    else
      var last := messages[|messages| - 1];
      var rest := InThreads(messages[..|messages| - 1], ws, threads);
      if last.workspace == ws && last.conversation in threads then rest + [last] else rest
  }

  function ListMessages(desk: Desk, user: UserId, id: LinkId, t: TicketId): Result<seq<Message>, Error> {
    match FindLink(desk, user, id)
    case Failure(e) => Failure(e)
    case Success(link) =>
      if t !in TicketsOf(desk, link) then Failure(NotFound)
      else Success(InThreads(desk.messages, link.workspace, Threads(desk.conversations, link.workspace, t)))
  }

  // ---- writes -----------------------------------------------------------------------------------

  // The links the query for an existing link of the user or of the client may answer with.
  function Existing(desk: Desk, ws: WorkspaceId, client: ClientId, user: UserId): set<LinkId> {
    set l | l in desk.links && desk.links[l].workspace == ws
            && (desk.links[l].user == user || desk.links[l].client == client)
  }

  function AfterLink(desk: Desk, ws: WorkspaceId, client: ClientId, email: string, id: LinkId,
                     now: int): Result<Desk, Error>
  {
    if client !in desk.clients || desk.clients[client].workspace != ws then Failure(NotFound)
    else if email !in desk.accounts || !desk.accounts[email].active then Failure(Invalid)
    else
      var user := desk.accounts[email].user;
      var link := Link(ws, client, user);
      if exists l :: l in desk.links && desk.links[l] == link then Success(desk)
      else if Existing(desk, ws, client, user) != {} then Failure(Invalid)
      else if id in desk.links then Failure(Conflict)
      else Success(Log(desk.(links := desk.links[id := link]), ws, LinkCreated, OtherResource(id), NO_FIELDS, now))
  }

  function AfterPortalTicket(desk: Desk, user: UserId, id: LinkId, t: TicketId, priority: Priority, now: int)
    : Result<Desk, Error>
  {
    match FindLink(desk, user, id)
    case Failure(e) => Failure(e)
    case Success(link) =>
      if t in desk.tickets then Failure(Conflict)
      else
        var ticket := Ticket(link.workspace, link.client, user, None, New, priority, now);
        Success(Log(desk.(tickets := desk.tickets[t := ticket]), link.workspace, PortalTicketCreated,
                    TicketResource(t), NO_FIELDS, now))
  }

  function FirstWeb(conversations: seq<Conversation>, ws: WorkspaceId, t: TicketId): Option<ConversationId> {
    if conversations == [] then None
    else
      var c := conversations[0];
      if c.workspace == ws && c.ticket == t && c.channel == Web then Some(c.id)
      else FirstWeb(conversations[1..], ws, t)
  }

  // The conversation the message goes to: the ticket's oldest web conversation, or a new one.
  function Thread(desk: Desk, ws: WorkspaceId, t: TicketId, spare: ConversationId)
    : Result<(ConversationId, Desk), Error>
  {
    match FirstWeb(desk.conversations, ws, t)
    case Some(c) => Success((c, desk))
    case None =>
      if exists c :: c in desk.conversations && c.id == spare then Failure(Conflict)
      else Success((spare, desk.(conversations := desk.conversations + [Conversation(spare, ws, t, Web)])))
  }

  function AfterPortalMessage(desk: Desk, user: UserId, id: LinkId, t: TicketId, spare: ConversationId,
                              m: MessageId, body: string, now: int): Result<Desk, Error>
  {
    match FindLink(desk, user, id)
    case Failure(e) => Failure(e)
    case Success(link) =>
      if t !in TicketsOf(desk, link) then Failure(NotFound)
      else
        match Thread(desk, link.workspace, t, spare)
        case Failure(e) => Failure(e)
        case Success((conversation, d)) =>
          if exists x :: x in desk.messages && x.id == m then Failure(Conflict)
          else
            var message := Message(m, link.workspace, conversation, Some(user), Inbound, body, now);
            Success(Log(d.(messages := d.messages + [message]), link.workspace, PortalMessageCreated,
                        OtherResource(m), NO_FIELDS, now))
  }

  // ---- what the reads show ----------------------------------------------------------------------

  // The message is in a conversation of ticket t, whoever wrote it.
  predicate InTicket(desk: Desk, ws: WorkspaceId, t: TicketId, m: Message) {
    && m.workspace == ws
    && exists c :: c in desk.conversations && c.id == m.conversation && c.workspace == ws && c.ticket == t
  }

  lemma {:induction false} InThreadsPicks(messages: seq<Message>, ws: WorkspaceId, threads: set<ConversationId>)
    returns (picks: seq<nat>)
    ensures var list := InThreads(messages, ws, threads);
            |picks| == |list| && forall i :: 0 <= i < |list| ==> picks[i] < |messages| && list[i] == messages[picks[i]]
    ensures forall i, j :: 0 <= i < j < |picks| ==> picks[i] < picks[j]
    ensures forall k: nat | k < |messages| ::
              k in picks <==> messages[k].workspace == ws && messages[k].conversation in threads
  {
    if messages == [] {
      picks := [];
    } else {
      var n := |messages| - 1;
      picks := InThreadsPicks(messages[..n], ws, threads);
      assert n !in picks;
      if messages[n].workspace == ws && messages[n].conversation in threads {
        picks := picks + [n];
      }
    }
  }

  /** What a user reads through a link: all the tickets of its client and no others; and of one of them,
      every message in its conversations, the operators' as well as the client's own, in the order stored. */
  lemma ReadsShow(desk: Desk, user: UserId, id: LinkId, t: TicketId) returns (picks: seq<nat>)
    requires id in desk.links && desk.links[id].user == user
    ensures var mine := desk.links[id];
            && ListTickets(desk, user, id).Success?
            && (t in ListTickets(desk, user, id).value
                <==> InWorkspace(desk, mine.workspace, t) && desk.tickets[t].client == mine.client)
            && (t in ListTickets(desk, user, id).value ==> ListTickets(desk, user, id).value[t] == desk.tickets[t])
            && (ListMessages(desk, user, id, t).Success? <==> t in ListTickets(desk, user, id).value)
    ensures ListMessages(desk, user, id, t).Success? ==>
              var list := ListMessages(desk, user, id, t).value;
              && |picks| == |list|
              && (forall i :: 0 <= i < |list| ==> picks[i] < |desk.messages| && list[i] == desk.messages[picks[i]])
              && (forall i, j :: 0 <= i < j < |picks| ==> picks[i] < picks[j])
              && forall k: nat | k < |desk.messages| ::
                   k in picks <==> InTicket(desk, desk.links[id].workspace, t, desk.messages[k])
  {
    var ws := desk.links[id].workspace;
    picks := InThreadsPicks(desk.messages, ws, Threads(desk.conversations, ws, t));
    hide InThreads;
    forall m: Message
      ensures InTicket(desk, ws, t, m) <==> m.workspace == ws && m.conversation in Threads(desk.conversations, ws, t)
    {
    }
  }

  // ---- ownership --------------------------------------------------------------------------------

  // In each workspace, links are a partial bijection between users and clients.
  predicate Bijective(links: map<LinkId, Link>) {
    forall k, l :: k in links && l in links && k != l && links[k].workspace == links[l].workspace ==>
      links[k].user != links[l].user && links[k].client != links[l].client
  }

  predicate DistinctConversations(conversations: seq<Conversation>) {
    forall i, j :: 0 <= i < j < |conversations| ==> conversations[i].id != conversations[j].id
  }

  predicate Sound(desk: Desk) {
    Bijective(desk.links) && DistinctConversations(desk.conversations)
  }

  datatype Step =
    | LinkUser(ws: WorkspaceId, client: ClientId, email: string, link: LinkId, at: int)
    | NewTicket(user: UserId, link: LinkId, ticket: TicketId, priority: Priority, at: int)
    | NewMessage(user: UserId, link: LinkId, ticket: TicketId, thread: ConversationId, message: MessageId,
                 body: string, at: int)

  function Effect(desk: Desk, s: Step): Result<Desk, Error> {
    match s
    case LinkUser(ws, client, email, link, at) => AfterLink(desk, ws, client, email, link, at)
    case NewTicket(user, link, t, priority, at) => AfterPortalTicket(desk, user, link, t, priority, at)
    case NewMessage(user, link, t, thread, m, body, at) => AfterPortalMessage(desk, user, link, t, thread, m, body, at)
  }

  // The desk after the step; a step that raises changes nothing.
  function Apply(desk: Desk, s: Step): Desk {
    match Effect(desk, s)
    case Success(d) => d
    case Failure(_) => desk
  }

  // The user a step acts for.
  function ActsFor(accounts: map<string, Account>, s: Step): Option<UserId> {
    match s
    case LinkUser(_, _, email, _, _) => if email in accounts then Some(accounts[email].user) else None
    case NewTicket(user, _, _, _, _) => Some(user)
    case NewMessage(user, _, _, _, _, _, _) => Some(user)
  }

  predicate IsWeb(c: Conversation, ws: WorkspaceId, t: TicketId) {
    c.workspace == ws && c.ticket == t && c.channel == Web
  }

  // The i-th conversation is the ticket's oldest web conversation.
  predicate OldestWeb(conversations: seq<Conversation>, i: nat, ws: WorkspaceId, t: TicketId) {
    i < |conversations| && IsWeb(conversations[i], ws, t) && forall j :: 0 <= j < i ==> !IsWeb(conversations[j], ws, t)
  }

  predicate HasWeb(conversations: seq<Conversation>, ws: WorkspaceId, t: TicketId) {
    exists c :: c in conversations && IsWeb(c, ws, t)
  }

  lemma {:induction false} FirstWebIsOldest(conversations: seq<Conversation>, ws: WorkspaceId, t: TicketId)
    ensures var first := FirstWeb(conversations, ws, t);
            && (first.Some? <==> HasWeb(conversations, ws, t))
            && (first.Some? ==>
                  exists i: nat :: OldestWeb(conversations, i, ws, t) && conversations[i].id == first.value)
  {
    if conversations != [] && !IsWeb(conversations[0], ws, t) {
      var rest := conversations[1..];
      FirstWebIsOldest(rest, ws, t);
      if FirstWeb(rest, ws, t).Some? {
        var i: nat :| OldestWeb(rest, i, ws, t) && rest[i].id == FirstWeb(rest, ws, t).value;
        assert forall j :: 0 < j <= i ==> conversations[j] == rest[j - 1];
        assert OldestWeb(conversations, i + 1, ws, t) && conversations[i + 1] == rest[i];
      }
      assert forall c :: c in conversations <==> c == conversations[0] || c in rest;
    } else if conversations != [] {
      assert OldestWeb(conversations, 0, ws, t) && conversations[0] in conversations;
    }
  }

  lemma FirstWebBelongs(conversations: seq<Conversation>, ws: WorkspaceId, t: TicketId)
    ensures FirstWeb(conversations, ws, t).Some? ==>
              exists c :: c in conversations && c.id == FirstWeb(conversations, ws, t).value
                          && c.workspace == ws && c.ticket == t
  {
    FirstWebIsOldest(conversations, ws, t);
    if FirstWeb(conversations, ws, t).Some? {
      var i: nat :| OldestWeb(conversations, i, ws, t) && conversations[i].id == FirstWeb(conversations, ws, t).value;
      assert conversations[i] in conversations;
    }
  }

  // Every portal step keeps the links a partial bijection and conversation identifiers distinct.
  lemma StepKeepsSound(desk: Desk, s: Step)
    requires Sound(desk)
    ensures Sound(Apply(desk, s))
  {
    if s.LinkUser? && Effect(desk, s).Success? {
      var user := desk.accounts[s.email].user;
      var d := Apply(desk, s);
      forall k, l | k in d.links && l in d.links && k != l && d.links[k].workspace == d.links[l].workspace
        ensures d.links[k].user != d.links[l].user && d.links[k].client != d.links[l].client
      {
        assert forall x :: x in desk.links ==> x !in Existing(desk, s.ws, s.client, user) || d == desk;
      }
    }
  }

  // ---- what a user sees -------------------------------------------------------------------------

  // The rows a link gives access to.
  predicate Reaches(desk: Desk, link: Link, m: Message) {
    m.workspace == link.workspace
    && exists c :: c in desk.conversations && c.id == m.conversation && c.workspace == link.workspace
                   && c.ticket in TicketsOf(desk, link)
  }

  function ReachableMessages(desk: Desk, link: Link, messages: seq<Message>): seq<Message> {
    if messages == [] then []
    else
      var last := messages[|messages| - 1];
      var rest := ReachableMessages(desk, link, messages[..|messages| - 1]);
      if Reaches(desk, link, last) then rest + [last] else rest
  }

  function ReachableConversations(desk: Desk, link: Link): set<(ConversationId, TicketId)> {
    set c | c in desk.conversations && c.workspace == link.workspace && c.ticket in TicketsOf(desk, link) ::
      (c.id, c.ticket)
  }

  // Two desks agree on link id of the user: on the link itself and, if it exists, on the tickets,
  // conversations and messages of its client.
  predicate Agree(d: Desk, e: Desk, user: UserId, id: LinkId) {
    && FindLink(d, user, id) == FindLink(e, user, id)
    && match FindLink(d, user, id)
       case Failure(_) => true
       case Success(link) =>
         && TicketsOf(d, link) == TicketsOf(e, link)
         && ReachableConversations(d, link) == ReachableConversations(e, link)
         && ReachableMessages(d, link, d.messages) == ReachableMessages(e, link, e.messages)
  }

  // Selecting a ticket's messages among the reachable ones is selecting them among all.
  lemma {:induction false} SelectAmongReachable(desk: Desk, link: Link, t: TicketId, messages: seq<Message>)
    requires t in TicketsOf(desk, link)
    ensures var threads := Threads(desk.conversations, link.workspace, t);
            InThreads(messages, link.workspace, threads)
            == InThreads(ReachableMessages(desk, link, messages), link.workspace, threads)
  {
    if messages != [] {
      var n := |messages| - 1;
      var last, rest := messages[n], ReachableMessages(desk, link, messages[..n]);
      SelectAmongReachable(desk, link, t, messages[..n]);
      if Reaches(desk, link, last) {
        assert (rest + [last])[..|rest|] == rest;
      }
    }
  }

  /** Reads are a function of what the link owns: two desks that agree on a link and on its client's
      tickets, conversations and messages answer every read through that link alike. */
  lemma AgreementDeterminesReads(d: Desk, e: Desk, user: UserId, id: LinkId, t: TicketId)
    requires Agree(d, e, user, id)
    ensures ListTickets(d, user, id) == ListTickets(e, user, id)
    ensures ListMessages(d, user, id, t) == ListMessages(e, user, id, t)
  {
    if FindLink(d, user, id).Success? {
      var link := FindLink(d, user, id).value;
      if t in TicketsOf(d, link) {
        SelectAmongReachable(d, link, t, d.messages);
        SelectAmongReachable(e, link, t, e.messages);
        ThreadsAmongReachable(d, link, t);
        ThreadsAmongReachable(e, link, t);
      }
    }
  }

  lemma ThreadsAmongReachable(desk: Desk, link: Link, t: TicketId)
    requires t in TicketsOf(desk, link)
    ensures Threads(desk.conversations, link.workspace, t)
            == set p | p in ReachableConversations(desk, link) && p.1 == t :: p.0
  {
    forall c | c in desk.conversations && c.workspace == link.workspace && c.ticket == t
      ensures (c.id, t) in ReachableConversations(desk, link)
    {
    }
  }

  ghost predicate SameReads(d: Desk, e: Desk, user: UserId) {
    && Accounts(d, user) == Accounts(e, user)
    && (forall id :: ListTickets(d, user, id) == ListTickets(e, user, id))
    && (forall id, t :: ListMessages(d, user, id, t) == ListMessages(e, user, id, t))
  }

  // The links of two users never own the same ticket.
  lemma LinksOwnApart(desk: Desk, k: LinkId, l: LinkId, ticket: Ticket)
    requires Bijective(desk.links) && k in desk.links && l in desk.links
    requires desk.links[k].user != desk.links[l].user
    ensures !(Owns(desk.links[k], ticket) && Owns(desk.links[l], ticket))
  {
  }

  lemma OpeningKeepsTickets(desk: Desk, s: Step, v: UserId, id: LinkId)
    requires Sound(desk) && s.NewTicket? && s.user != v
    ensures FindLink(Apply(desk, s), v, id) == FindLink(desk, v, id)
    ensures ListTickets(Apply(desk, s), v, id) == ListTickets(desk, v, id)
  {
    var d := Apply(desk, s);
    if Effect(desk, s).Success? && FindLink(desk, v, id).Success? {
      LinksOwnApart(desk, s.link, id, d.tickets[s.ticket]);
      assert TicketsOf(d, desk.links[id]) == TicketsOf(desk, desk.links[id]);
    }
  }

  lemma LinkingKeepsTickets(desk: Desk, s: Step, v: UserId, id: LinkId)
    requires s.LinkUser? && ActsFor(desk.accounts, s) != Some(v)
    ensures FindLink(Apply(desk, s), v, id) == FindLink(desk, v, id)
    ensures ListTickets(Apply(desk, s), v, id) == ListTickets(desk, v, id)
  {
    hide Existing;
  }

  lemma WritingKeepsTickets(desk: Desk, s: Step, v: UserId, id: LinkId)
    requires s.NewMessage?
    ensures FindLink(Apply(desk, s), v, id) == FindLink(desk, v, id)
    ensures ListTickets(Apply(desk, s), v, id) == ListTickets(desk, v, id)
  {
    hide FirstWeb;
  }

  lemma StepKeepsTickets(desk: Desk, s: Step, v: UserId, id: LinkId)
    requires Sound(desk)
    requires ActsFor(desk.accounts, s) != Some(v)
    ensures FindLink(Apply(desk, s), v, id) == FindLink(desk, v, id)
    ensures ListTickets(Apply(desk, s), v, id) == ListTickets(desk, v, id)
  {
    hide FindLink, ListTickets, Apply, Sound;
    match s
    case LinkUser(_, _, _, _, _) => LinkingKeepsTickets(desk, s, v, id);
    case NewTicket(_, _, _, _, _) => OpeningKeepsTickets(desk, s, v, id);
    case NewMessage(_, _, _, _, _, _, _) => WritingKeepsTickets(desk, s, v, id);
  }

  // A message, or the conversation made for it, is in no thread of a ticket of another client.
  lemma MessageStaysInThread(desk: Desk, s: Step, ws: WorkspaceId, t: TicketId)
    requires Sound(desk)
    requires s.NewMessage? && Effect(desk, s).Success? && (desk.links[s.link].workspace != ws || s.ticket != t)
    ensures var d := Apply(desk, s);
            && Threads(d.conversations, ws, t) == Threads(desk.conversations, ws, t)
            && InThreads(d.messages, ws, Threads(desk.conversations, ws, t))
               == InThreads(desk.messages, ws, Threads(desk.conversations, ws, t))
  {
    var d, mine := Apply(desk, s), desk.links[s.link];
    FirstWebBelongs(desk.conversations, mine.workspace, s.ticket);
    var message := d.messages[|d.messages| - 1];
    assert d.messages[..|d.messages| - 1] == desk.messages;
    assert message.conversation !in Threads(desk.conversations, ws, t);
  }

  lemma StepKeepsMessages(desk: Desk, s: Step, v: UserId, id: LinkId, t: TicketId)
    requires Sound(desk)
    requires ActsFor(desk.accounts, s) != Some(v)
    ensures ListMessages(Apply(desk, s), v, id, t) == ListMessages(desk, v, id, t)
  {
    hide InThreads, Threads, Thread;
    StepKeepsTickets(desk, s, v, id);
    if s.NewMessage? && Effect(desk, s).Success? && ListMessages(desk, v, id, t).Success? {
      LinksOwnApart(desk, s.link, id, desk.tickets[t]);
      MessageStaysInThread(desk, s, desk.links[id].workspace, t);
    }
  }

  lemma StepKeepsAccounts(desk: Desk, s: Step, v: UserId)
    requires ActsFor(desk.accounts, s) != Some(v)
    ensures Accounts(Apply(desk, s), v) == Accounts(desk, v)
  {
    hide FirstWeb;
  }

  /** What one user does in the portal never shows in what another user reads there, nor does linking
      another user. */
  lemma StepsDoNotInterfere(desk: Desk, s: Step, v: UserId)
    requires Sound(desk)
    requires ActsFor(desk.accounts, s) != Some(v)
    ensures SameReads(Apply(desk, s), desk, v)
  {
    StepKeepsAccounts(desk, s, v);
    hide Apply, Accounts;
    forall id
      ensures ListTickets(Apply(desk, s), v, id) == ListTickets(desk, v, id)
    {
      StepKeepsTickets(desk, s, v, id);
    }
    forall id, t
      ensures ListMessages(Apply(desk, s), v, id, t) == ListMessages(desk, v, id, t)
    {
      StepKeepsMessages(desk, s, v, id, t);
    }
  }

  function Run(desk: Desk, steps: seq<Step>): Desk
    decreases |steps|
  {
    if steps == [] then desk else Run(Apply(desk, steps[0]), steps[1..])
  }

  // No step of the run acts for v.
  predicate Without(accounts: map<string, Account>, steps: seq<Step>, v: UserId) {
    forall i :: 0 <= i < |steps| ==> ActsFor(accounts, steps[i]) != Some(v)
  }

  /** Over any run of portal steps that act for other users, the links stay a partial bijection and
      v's view of the portal stays what it was. */
  lemma {:induction false} RunsDoNotInterfere(desk: Desk, steps: seq<Step>, v: UserId)
    requires Sound(desk)
    requires Without(desk.accounts, steps, v)
    ensures Sound(Run(desk, steps))
    ensures SameReads(Run(desk, steps), desk, v)
    decreases |steps|
  {
    if steps != [] {
      var d := Apply(desk, steps[0]);
      StepKeepsSound(desk, steps[0]);
      StepsDoNotInterfere(desk, steps[0], v);
      RunsDoNotInterfere(d, steps[1..], v);
    }
  }

  // ---- and one's own steps do show --------------------------------------------------------------

  /** A ticket a user opens is from then on among the tickets the link shows, as opened, and nothing else
      changes there. */
  lemma OwnTicketShows(desk: Desk, user: UserId, id: LinkId, t: TicketId, priority: Priority, now: int)
    requires AfterPortalTicket(desk, user, id, t, priority, now).Success?
    ensures var d := AfterPortalTicket(desk, user, id, t, priority, now).value;
            var mine := desk.links[id];
            var ticket := Ticket(mine.workspace, mine.client, user, None, New, priority, now);
            && ListTickets(desk, user, id).Success?
            && ListTickets(d, user, id) == Success(ListTickets(desk, user, id).value[t := ticket])
  {
    var d := AfterPortalTicket(desk, user, id, t, priority, now).value;
    var ticket := Ticket(desk.links[id].workspace, desk.links[id].client, user, None, New, priority, now);
    assert d.tickets == desk.tickets[t := ticket] && Owns(desk.links[id], ticket);
    assert TicketsOf(d, desk.links[id]) == TicketsOf(desk, desk.links[id])[t := ticket];
  }

  function ClientTickets(desk: Desk, ws: WorkspaceId, client: ClientId): map<TicketId, Ticket> {
    map t | t in desk.tickets && desk.tickets[t].workspace == ws && desk.tickets[t].client == client :: desk.tickets[t]
  }

  /** A link once made, or found again, shows its user the client, if active, with all its tickets. */
  lemma LinkShows(desk: Desk, ws: WorkspaceId, client: ClientId, email: string, id: LinkId, now: int)
    requires AfterLink(desk, ws, client, email, id, now).Success?
    ensures var d := AfterLink(desk, ws, client, email, id, now).value;
            && email in desk.accounts && client in desk.clients && d.tickets == desk.tickets
            && exists l :: l in d.links && d.links[l] == Link(ws, client, desk.accounts[email].user)
                           && (l in Accounts(d, desk.accounts[email].user) <==> desk.clients[client].active)
                           && TicketsOf(d, d.links[l]) == ClientTickets(desk, ws, client)
  {
    var d, link := AfterLink(desk, ws, client, email, id, now).value, Link(ws, client, desk.accounts[email].user);
    hide Existing;
    if d != desk {
      assert d.links[id] == link;
    }
    var l :| l in d.links && d.links[l] == link;
    assert TicketsOf(d, link) == ClientTickets(desk, ws, client);
  }

  lemma {:induction false} EmptyThreadIsSilent(messages: seq<Message>, ws: WorkspaceId, threads: set<ConversationId>,
                                               extra: ConversationId)
    requires forall m :: m in messages ==> m.conversation != extra
    ensures InThreads(messages, ws, threads + {extra}) == InThreads(messages, ws, threads)
  {
    if messages != [] {
      assert messages[|messages| - 1] in messages;
      EmptyThreadIsSilent(messages[..|messages| - 1], ws, threads, extra);
    }
  }

  // A client's message goes to the ticket's oldest web conversation, or to the spare one if there is none.
  predicate GoesTo(desk: Desk, ws: WorkspaceId, t: TicketId, spare: ConversationId, c: ConversationId) {
    if HasWeb(desk.conversations, ws, t)
    then
      exists i: nat | i < |desk.conversations| ::
        OldestWeb(desk.conversations, i, ws, t) && desk.conversations[i].id == c
    else c == spare
  }

  // Where the message goes is a thread of the ticket, and a new thread holds nothing yet.
  lemma ThreadIsOwn(desk: Desk, ws: WorkspaceId, t: TicketId, spare: ConversationId)
    requires Threaded(desk) && Thread(desk, ws, t, spare).Success?
    ensures var (c, d) := Thread(desk, ws, t, spare).value;
            && d.messages == desk.messages && c in Threads(d.conversations, ws, t) && GoesTo(desk, ws, t, spare, c)
            && InThreads(desk.messages, ws, Threads(d.conversations, ws, t))
               == InThreads(desk.messages, ws, Threads(desk.conversations, ws, t))
  {
    var (c, d) := Thread(desk, ws, t, spare).value;
    FirstWebBelongs(desk.conversations, ws, t);
    FirstWebIsOldest(desk.conversations, ws, t);
    hide OldestWeb, HasWeb, FirstWeb;
    if d != desk {
      var added := Conversation(spare, ws, t, Web);
      assert d.conversations == desk.conversations + [added] && added in d.conversations;
      assert Threads(d.conversations, ws, t) == Threads(desk.conversations, ws, t) + {spare};
      EmptyThreadIsSilent(desk.messages, ws, Threads(desk.conversations, ws, t), spare);
    }
  }

  /** A message a user adds is from then on the last of the ticket's messages, inbound and under the
      user's name, and those before it are as they were. */
  lemma OwnMessageShows(desk: Desk, user: UserId, id: LinkId, t: TicketId, spare: ConversationId, m: MessageId,
                        body: string, now: int)
    requires Threaded(desk) && AfterPortalMessage(desk, user, id, t, spare, m, body, now).Success?
    ensures var d := AfterPortalMessage(desk, user, id, t, spare, m, body, now).value;
            && ListMessages(desk, user, id, t).Success?
            && exists c :: GoesTo(desk, desk.links[id].workspace, t, spare, c)
                           && ListMessages(d, user, id, t)
                              == Success(ListMessages(desk, user, id, t).value
                                         + [Message(m, desk.links[id].workspace, c, Some(user), Inbound, body, now)])
  {
    var d, ws := AfterPortalMessage(desk, user, id, t, spare, m, body, now).value, desk.links[id].workspace;
    ThreadIsOwn(desk, ws, t, spare);
    var (c, e) := Thread(desk, ws, t, spare).value;
    hide Thread, Threads, GoesTo;
    var message := Message(m, ws, c, Some(user), Inbound, body, now);
    assert d.messages == desk.messages + [message] && d.messages[..|d.messages| - 1] == desk.messages;
    assert TicketsOf(d, desk.links[id]) == TicketsOf(desk, desk.links[id]);
    assert ListMessages(d, user, id, t) == Success(ListMessages(desk, user, id, t).value + [message]);
  }

  class PortalService {
    const db: Database

    constructor (db: Database)
      ensures this.db == db
    {
      this.db := db;
    }

    // The query may answer with any link of the user or of the client; the links being a partial
    // bijection, the answer does not depend on which.
    method LinkClientUser(ws: WorkspaceId, client: ClientId, email: string, id: LinkId,
                          now: int) returns (r: Outcome<Error>)
      requires Bijective(db.rows.desk.links) && db.committed == db.rows
      modifies db
      ensures db.Performed(OnDesk(old(db.rows), AfterLink(old(db.rows).desk, ws, client, email, id, now)),
                           old(db.rows), old(db.committed), r)
    {
      var desk := db.rows.desk;
      if client !in desk.clients || desk.clients[client].workspace != ws {
        return Fail(NotFound);
      }
      if email !in desk.accounts || !desk.accounts[email].active {
        return Fail(Invalid);
      }
      var user := desk.accounts[email].user;
      var existing := Existing(desk, ws, client, user);
      if existing != {} {
        var e :| e in existing;
        if desk.links[e].user == user && desk.links[e].client == client {
          assert desk.links[e] == Link(ws, client, user);
          return Pass;
        }
        return Fail(Invalid);
      }
      assert forall l :: l in desk.links ==> l !in existing;
      if id in desk.links {
        return Fail(Conflict);
      }
      db.rows := db.rows.(desk := desk.(links := desk.links[id := Link(ws, client, user)]));
      db.Record(ws, LinkCreated, OtherResource(id), NO_FIELDS, now);
      db.Commit();
      r := Pass;
    }

    method CreateTicket(user: UserId, id: LinkId, t: TicketId, priority: Priority, now: int) returns (r: Outcome<Error>)
      modifies db
      ensures db.Performed(OnDesk(old(db.rows), AfterPortalTicket(old(db.rows).desk, user, id, t, priority, now)),
                           old(db.rows), old(db.committed), r)
    {
      var desk := db.rows.desk;
      if FindLink(desk, user, id).Failure? {
        return Fail(NotFound);
      }
      if t in desk.tickets {
        return Fail(Conflict);
      }
      var link := desk.links[id];
      var ticket := Ticket(link.workspace, link.client, user, None, New, priority, now);
      db.rows := db.rows.(desk := desk.(tickets := desk.tickets[t := ticket]));
      db.Record(link.workspace, PortalTicketCreated, TicketResource(t), NO_FIELDS, now);
      db.Commit();
      r := Pass;
    }

    method AddMessage(user: UserId, id: LinkId, t: TicketId, spare: ConversationId, m: MessageId, body: string,
                      now: int)
      returns (r: Outcome<Error>)
      modifies db
      ensures db.Performed(OnDesk(old(db.rows),
                                  AfterPortalMessage(old(db.rows).desk, user, id, t, spare, m, body, now)),
                           old(db.rows), old(db.committed), r)
    {
      var desk := db.rows.desk;
      if FindLink(desk, user, id).Failure? {
        return Fail(NotFound);
      }
      var link := desk.links[id];
      if t !in desk.tickets || !Owns(link, desk.tickets[t]) {
        return Fail(NotFound);
      }
      var conversation := spare;
      match FirstWeb(desk.conversations, link.workspace, t) {
        case Some(c) => conversation := c;
        case None =>
          if exists c :: c in desk.conversations && c.id == spare {
            return Fail(Conflict);
          }
          desk := desk.(conversations := desk.conversations + [Conversation(spare, link.workspace, t, Web)]);
      }
      if exists x :: x in desk.messages && x.id == m {
        return Fail(Conflict);
      }
      var message := Message(m, link.workspace, conversation, Some(user), Inbound, body, now);
      db.rows := db.rows.(desk := desk.(messages := desk.messages + [message]));
      db.Record(link.workspace, PortalMessageCreated, OtherResource(m), NO_FIELDS, now);
      db.Commit();
      r := Pass;
    }
  }
}
