/** The SLA clock of apps/api/app/services/operations_service.py, as functions on the stored rows. */
module SlaClock {
  import opened Wrappers
  import opened TicketEnums
  import opened Store

  // ---- policies and deadlines -------------------------------------------------------------------

  function DefaultPolicy(priority: Priority): Policy {
    match priority
    case Low => Policy(240, 2880, 60, true)
    case Medium => Policy(120, 1440, 30, true)
    case High => Policy(60, 480, 15, true)
    case Urgent => Policy(15, 240, 5, true)
  }

  predicate HasPolicy(db: Db, key: PolicyKey) {
    key in db.policies && db.policies[key].active
  }

  // The policy ensure_policy answers with.
  function PolicyInForce(db: Db, key: PolicyKey): Policy {
    if HasPolicy(db, key) then db.policies[key] else DefaultPolicy(key.priority)
  }

  function KeyOf(db: Db, t: TicketId): PolicyKey
    requires t in db.desk.tickets
  {
    PolicyKey(db.desk.tickets[t].workspace, db.desk.tickets[t].priority)
  }

  function FreshTrack(dueAt: int): Track {
    Track(dueAt, None, false, false)
  }

  function FreshSla(db: Db, t: TicketId): TicketSla
    requires t in db.desk.tickets
  {
    var policy := PolicyInForce(db, KeyOf(db, t));
    var base := db.desk.tickets[t].createdAt;
    TicketSla(db.desk.tickets[t].workspace, KeyOf(db, t),
              FreshTrack(base + policy.firstResponseMinutes * MINUTE),
              FreshTrack(base + policy.resolutionMinutes * MINUTE))
  }

  function WithoutSla(db: Db, ws: WorkspaceId): set<TicketId> {
    set t | t in db.desk.tickets && db.desk.tickets[t].workspace == ws && t !in db.slas
  }

  function KeysOf(db: Db, ts: set<TicketId>): set<PolicyKey>
    requires ts <= db.desk.tickets.Keys
  {
    set t | t in ts :: KeyOf(db, t)
  }

  // The policies once ensure_policy has run for each of the keys.
  function WithDefaults(policies: map<PolicyKey, Policy>, keys: set<PolicyKey>): map<PolicyKey, Policy> {
    map k | k in policies.Keys + keys ::
      if k in policies && (policies[k].active || k !in keys) then policies[k] else DefaultPolicy(k.priority)
  }

  // Attaches an SLA to every ticket of ts, creating the default policies that takes.
  function Attach(db: Db, ts: set<TicketId>): Db
    requires ts <= db.desk.tickets.Keys
  {
    db.(policies := WithDefaults(db.policies, KeysOf(db, ts)),
        slas := map t | t in db.slas.Keys + ts :: if t in ts then FreshSla(db, t) else db.slas[t])
  }

  function Materialize(db: Db, ws: WorkspaceId): Db {
    Attach(db, WithoutSla(db, ws))
  }

  // ---- history ----------------------------------------------------------------------------------

  predicate IsReply(m: Message, ws: WorkspaceId, conversations: set<ConversationId>) {
    m.workspace == ws && m.direction == Outbound && m.conversation in conversations
  }

  // ORDER BY created_at LIMIT 1 over the outbound messages of those conversations.
  function EarliestReply(messages: seq<Message>, ws: WorkspaceId, conversations: set<ConversationId>): Option<int> {
    if messages == [] then None
    else
      var last := messages[|messages| - 1];
      var rest := EarliestReply(messages[..|messages| - 1], ws, conversations);
      if !IsReply(last, ws, conversations) then rest
      else if rest.Some? && rest.value <= last.at then rest
      else Some(last.at)
  }

  function FirstOutboundAt(desk: Desk, ws: WorkspaceId, t: TicketId): Option<int> {
    EarliestReply(desk.messages, ws, Threads(desk.conversations, ws, t))
  }

  predicate IsStatusEvent(e: AuditEvent, ws: WorkspaceId, t: TicketId) {
    e.workspace == ws && e.resource == TicketResource(t) && e.action == TicketStatusChanged
  }

  // The status events of a ticket, in the order the audit trail holds them.
  function StatusEvents(audit: seq<AuditEvent>, ws: WorkspaceId, t: TicketId): seq<AuditEvent> {
    if audit == [] then []
    else
      var last := audit[|audit| - 1];
      var rest := StatusEvents(audit[..|audit| - 1], ws, t);
      if IsStatusEvent(last, ws, t) then rest + [last] else rest
  }

  predicate Resolves(e: AuditEvent) {
    e.metadata.Fields? && (e.metadata.to == Some(Resolved) || e.metadata.to == Some(Closed))
  }

  // When the first of the events that resolves or closes happened.
  function FirstResolution(events: seq<AuditEvent>): Option<int> {
    if events == [] then None
    else if Resolves(events[0]) then Some(events[0].at)
    else FirstResolution(events[1..])
  }

  function FirstResolvedAt(desk: Desk, ws: WorkspaceId, t: TicketId): Option<int> {
    FirstResolution(StatusEvents(desk.audit, ws, t))
  }

  // ---- one ticket -------------------------------------------------------------------------------

  // A met objective is judged once, strictly, and never looked at again.
  function RecordMet(track: Track, at: Option<int>): Track {
    if track.metAt.None? && at.Some?
    then track.(metAt := at, breached := at.value > track.dueAt)
    else track
  }

  function Refreshed(desk: Desk, ws: WorkspaceId, t: TicketId, item: TicketSla): TicketSla {
    item.(response := RecordMet(item.response, FirstOutboundAt(desk, ws, t)),
          resolution := RecordMet(item.resolution, FirstResolvedAt(desk, ws, t)))
  }

  // What the sweep sends for an objective: at most one notification.
  function Due(track: Track, now: int, warning: int): Option<NotificationType> {
    if track.metAt.Some? then None
    else if now >= track.dueAt && !track.breached then Some(SlaBreached)
    else if now >= track.dueAt - warning && !track.warningSent then Some(SlaWarning)
    else None
  }

  function Mark(track: Track, kind: Option<NotificationType>): Track {
    match kind
    case None => track
    case Some(SlaBreached) => track.(breached := true)
    case Some(SlaWarning) => track.(warningSent := true)
  }

  function TrackOf(item: TicketSla, o: Objective): Track {
    match o
    case FirstResponse => item.response
    case Resolution => item.resolution
  }

  function Recipient(ticket: Ticket): UserId {
    match ticket.assignee
    case Some(user) => user
    case None => ticket.creator
  }

  // What the sweep sends for one objective of a refreshed row: nothing if its policy is gone.
  function DueOf(db: Db, item: TicketSla, o: Objective, now: int): Option<NotificationType> {
    if item.policy !in db.policies then None
    else Due(TrackOf(item, o), now, db.policies[item.policy].warningMinutes * MINUTE)
  }

  // The row of ticket t after one turn of the sweep loop.
  function Evaluated(db: Db, t: TicketId, now: int): TicketSla
    requires t in db.slas
  {
    var item := Refreshed(db.desk, db.slas[t].workspace, t, db.slas[t]);
    item.(response := Mark(item.response, DueOf(db, item, FirstResponse, now)),
          resolution := Mark(item.resolution, DueOf(db, item, Resolution, now)))
  }

  // The notification that turn sends for objective o.
  function Alert(db: Db, t: TicketId, now: int, o: Objective): Option<Notification>
    requires t in db.slas && t in db.desk.tickets
  {
    var ws := db.slas[t].workspace;
    match DueOf(db, Refreshed(db.desk, ws, t, db.slas[t]), o, now)
    case None => None
    case Some(kind) => Some(Notification(ws, Recipient(db.desk.tickets[t]), t, kind, o))
  }

  const OBJECTIVES: set<Objective> := {FirstResponse, Resolution}

  function Alerts(db: Db, ts: set<TicketId>, now: int): set<Notification>
    requires ts <= db.slas.Keys && ts <= db.desk.tickets.Keys
  {
    set t, o | t in ts && o in OBJECTIVES && Alert(db, t, now, o).Some? :: Alert(db, t, now, o).value
  }

  // ---- one workspace ----------------------------------------------------------------------------

  predicate Active(item: TicketSla) {
    item.response.metAt.None? || item.resolution.metAt.None?
  }

  function ActiveSlas(db: Db, ws: WorkspaceId): set<TicketId> {
    set t | t in db.slas && db.slas[t].workspace == ws && Active(db.slas[t])
  }

  // The active SLAs the sweep evaluates: those whose ticket is found in the workspace.
  function Swept(db: Db, ws: WorkspaceId): set<TicketId> {
    set t | t in ActiveSlas(db, ws) && InWorkspace(db.desk, ws, t)
  }

  // The rows after the sweep has taken its turn with each ticket of ts.
  function SweepAll(db: Db, ts: set<TicketId>, now: int): Db
    requires ts <= db.slas.Keys && ts <= db.desk.tickets.Keys
  {
    db.(slas := map t | t in db.slas :: if t in ts then Evaluated(db, t, now) else db.slas[t],
        notifications := db.notifications + multiset(Alerts(db, ts, now)))
  }

  function Evaluate(db: Db, ws: WorkspaceId, now: int): Db {
    var d := Materialize(db, ws);
    SweepAll(d, Swept(d, ws), now)
  }

  datatype Counts = Counts(evaluated: nat, warnings: nat, breaches: nat)

  function OfKind(ns: set<Notification>, kind: NotificationType): set<Notification> {
    set n | n in ns && n.kind == kind
  }

  // The notifications a sweep of the workspace sends.
  function EvaluationAlerts(db: Db, ws: WorkspaceId, now: int): set<Notification> {
    var d := Materialize(db, ws);
    Alerts(d, Swept(d, ws), now)
  }

  function EvaluationCounts(db: Db, ws: WorkspaceId, now: int): Counts {
    var alerts := EvaluationAlerts(db, ws, now);
    Counts(|Swept(Materialize(db, ws), ws)|, |OfKind(alerts, SlaWarning)|, |OfKind(alerts, SlaBreached)|)
  }

  // get_ticket_sla: attach if need be, refresh, commit.
  function ReadSla(db: Db, ws: WorkspaceId, t: TicketId): Result<Db, Error> {
    if !InWorkspace(db.desk, ws, t) then Failure(NotFound)
    else if t in db.slas && db.slas[t].workspace != ws then Failure(Conflict)
    else
      var d := if t in db.slas then db else Attach(db, {t});
      Success(d.(slas := d.slas[t := Refreshed(d.desk, ws, t, d.slas[t])]))
  }

  function AfterPolicy(db: Db, key: PolicyKey, first: int, resolution: int, warning: int, now: int): Result<Db, Error> {
    if warning >= (if first <= resolution then first else resolution) then Failure(Invalid)
    else
      Success(db.(policies := db.policies[key := Policy(first, resolution, warning, true)],
                  desk := Log(db.desk, key.workspace, PolicyUpdated, OtherResource(0), NO_FIELDS, now)))
  }
}
