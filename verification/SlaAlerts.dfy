/** What the sweep announces: at most one warning and one breach per objective over a whole run, counters
    that match the rows appended, and silence from the third sweep on. */
module SlaAlerts {
  import opened Wrappers
  import opened Store
  import opened SlaClock
  import opened History
  import opened Lifecycle
  import opened SlaHistory
  import Operations

  // ---- at most once -----------------------------------------------------------------------------

  // Has this kind of notification been used up for the objective?
  predicate Spent(track: Track, kind: NotificationType) {
    match kind
    case SlaWarning => track.warningSent
    case SlaBreached => track.breached || track.metAt.Some?
  }

  predicate SameKey(n: Notification, m: Notification) {
    n.ticket == m.ticket && n.objective == m.objective && n.kind == m.kind
  }

  predicate IsSpent(slas: map<TicketId, TicketSla>, n: Notification) {
    n.ticket in slas && Spent(TrackOf(slas[n.ticket], n.objective), n.kind)
  }

  // One row per ticket, objective and kind.
  predicate AtMostOnce(notifications: multiset<Notification>) {
    && (forall n :: n in notifications ==> notifications[n] == 1)
    && (forall n, m :: n in notifications && m in notifications && SameKey(n, m) ==> n == m)
  }

  predicate Announced(db: Db) {
    && AtMostOnce(db.notifications)
    && forall n :: n in db.notifications ==> IsSpent(db.slas, n)
  }

  lemma FreezeKeepsSpent(db: Db, e: Db, n: Notification)
    requires IsSpent(db.slas, n)
    requires n.ticket in e.slas && Frozen(db.slas[n.ticket], e.slas[n.ticket])
    ensures IsSpent(e.slas, n)
  {
    var x, y := TrackOf(db.slas[n.ticket], n.objective), TrackOf(e.slas[n.ticket], n.objective);
    assert y.dueAt == x.dueAt;
  }

  // An alert is about something that was not spent, and is afterwards.
  lemma AlertSpends(d: Db, ts: set<TicketId>, now: int, n: Notification)
    requires ts <= d.slas.Keys && ts <= d.desk.tickets.Keys && n in Alerts(d, ts, now)
    ensures n.ticket in ts && Alert(d, n.ticket, now, n.objective) == Some(n)
    ensures !IsSpent(d.slas, n) && IsSpent(SweepAll(d, ts, now).slas, n)
  {
    hide FirstOutboundAt, FirstResolvedAt;
  }

  lemma NewKeysOnce(sent: multiset<Notification>, alerts: set<Notification>)
    requires AtMostOnce(sent)
    requires forall n, m :: n in alerts && m in sent ==> !SameKey(n, m)
    requires forall n, m :: n in alerts && m in alerts && SameKey(n, m) ==> n == m
    ensures AtMostOnce(sent + multiset(alerts))
  {
    forall n | n in alerts
      ensures n !in sent
    {
      assert SameKey(n, n);
    }
  }

  lemma SweepKeepsAnnounced(d: Db, ts: set<TicketId>, now: int)
    requires Announced(d) && ts <= d.slas.Keys && ts <= d.desk.tickets.Keys
    ensures Announced(SweepAll(d, ts, now))
  {
    var e, alerts := SweepAll(d, ts, now), Alerts(d, ts, now);
    forall n | n in alerts
      ensures !IsSpent(d.slas, n) && IsSpent(e.slas, n) && Alert(d, n.ticket, now, n.objective) == Some(n)
    {
      AlertSpends(d, ts, now, n);
    }
    forall n | n in d.notifications
      ensures IsSpent(e.slas, n)
    {
      SweepFreezes(d, ts, now, n.ticket);
      FreezeKeepsSpent(d, e, n);
    }
    hide Alerts, Alert;
    NewKeysOnce(d.notifications, alerts);
    assert e.notifications == d.notifications + multiset(alerts);
  }

  lemma StepKeepsAnnounced(db: Db, s: Step)
    requires Announced(db)
    ensures Announced(Apply(db, s))
  {
    if s.Tick? {
      var d := Materialize(db, s.ws);
      forall n | n in db.notifications
        ensures IsSpent(d.slas, n)
      {
        MaterializeFreezes(db, s.ws, n.ticket);
      }
      SweepKeepsAnnounced(d, Swept(d, s.ws), s.at);
    } else {
      OtherStepsAreSilent(db, s);
      forall n | n in db.notifications
        ensures IsSpent(Apply(db, s).slas, n)
      {
        StepFreezes(db, s, n.ticket);
        FreezeKeepsSpent(db, Apply(db, s), n);
      }
    }
  }

  lemma OtherStepsAreSilent(db: Db, s: Step)
    requires !s.Tick?
    ensures Apply(db, s).notifications == db.notifications
  {
    if s.ReadClock? {
      ReadIsApplied(db, s.ws, s.ticket, s.at);
      hide Apply, Refreshed, WithDefaults, FreshSla;
    } else {
      OtherIsApplied(db, s);
      hide Apply;
    }
  }

  /** Over any run, each ticket SLA yields at most one warning and at most one breach notification per
      objective: four in all. */
  lemma {:induction false} NotifiedAtMostOnce(steps: seq<Step>)
    ensures AtMostOnce(Run(steps).notifications)
    ensures Announced(Run(steps))
  {
    if steps != [] {
      NotifiedAtMostOnce(steps[..|steps| - 1]);
      StepKeepsAnnounced(Run(steps[..|steps| - 1]), steps[|steps| - 1]);
    }
  }

  // ---- and at least once ------------------------------------------------------------------------

  predicate HasAlert(notifications: multiset<Notification>, ws: WorkspaceId, t: TicketId, o: Objective,
                     kind: NotificationType) {
    exists n :: n in notifications && n.workspace == ws && n.ticket == t && n.objective == o && n.kind == kind
  }

  // A warning flag, and the breach flag of an open objective, stand for a notification sent.
  predicate Heard(notifications: multiset<Notification>, ws: WorkspaceId, t: TicketId, o: Objective, track: Track) {
    && (track.warningSent ==> HasAlert(notifications, ws, t, o, SlaWarning))
    && (track.breached && track.metAt.None? ==> HasAlert(notifications, ws, t, o, SlaBreached))
  }

  predicate Told(db: Db) {
    forall t, o :: t in db.slas && o in OBJECTIVES ==>
      Heard(db.notifications, db.slas[t].workspace, t, o, TrackOf(db.slas[t], o))
  }

  lemma HeardLater(ns: multiset<Notification>, more: multiset<Notification>, ws: WorkspaceId, t: TicketId, o: Objective,
                   track: Track, at: Option<int>)
    requires Heard(ns, ws, t, o, track)
    ensures Heard(ns + more, ws, t, o, RecordMet(track, at))
  {
    forall kind | HasAlert(ns, ws, t, o, kind)
      ensures HasAlert(ns + more, ws, t, o, kind)
    {
      var n :| n in ns && n.workspace == ws && n.ticket == t && n.objective == o && n.kind == kind;
      assert n in ns + more;
    }
  }

  lemma AlertIsSent(d: Db, ts: set<TicketId>, now: int, t: TicketId, o: Objective, kind: NotificationType)
    requires ts <= d.slas.Keys && ts <= d.desk.tickets.Keys && t in ts && o in OBJECTIVES
    requires DueOf(d, Refreshed(d.desk, d.slas[t].workspace, t, d.slas[t]), o, now) == Some(kind)
    ensures HasAlert(SweepAll(d, ts, now).notifications, d.slas[t].workspace, t, o, kind)
  {
    var n := Alert(d, t, now, o).value;
    assert n in Alerts(d, ts, now);
    hide Alert, Alerts, Evaluated;
    assert n in SweepAll(d, ts, now).notifications;
  }

  lemma TurnIsHeard(d: Db, ts: set<TicketId>, now: int, t: TicketId, o: Objective)
    requires ts <= d.slas.Keys && ts <= d.desk.tickets.Keys && t in d.slas && o in OBJECTIVES
    requires Heard(d.notifications, d.slas[t].workspace, t, o, TrackOf(d.slas[t], o))
    ensures var e := SweepAll(d, ts, now);
            && e.slas[t].workspace == d.slas[t].workspace
            && Heard(e.notifications, e.slas[t].workspace, t, o, TrackOf(e.slas[t], o))
  {
    var ws, track := d.slas[t].workspace, TrackOf(d.slas[t], o);
    var alerts := multiset(Alerts(d, ts, now));
    if t in ts {
      var item := Refreshed(d.desk, ws, t, d.slas[t]);
      var due := DueOf(d, item, o, now);
      HeardLater(d.notifications, alerts, ws, t, o, track, MetAt(d.desk, ws, t, o));
      assert TrackOf(item, o) == RecordMet(track, MetAt(d.desk, ws, t, o));
      if due.Some? {
        AlertIsSent(d, ts, now, t, o, due.value);
      }
      hide Alerts, DueOf, Refreshed, HasAlert, MetAt;
      assert TrackOf(Evaluated(d, t, now), o) == Mark(TrackOf(item, o), due);
    } else {
      HeardLater(d.notifications, alerts, ws, t, o, track, None);
    }
  }

  lemma SweepKeepsTold(d: Db, ts: set<TicketId>, now: int)
    requires Told(d) && ts <= d.slas.Keys && ts <= d.desk.tickets.Keys
    ensures Told(SweepAll(d, ts, now))
  {
    var e := SweepAll(d, ts, now);
    assert e.slas.Keys == d.slas.Keys;
    forall t, o | t in e.slas && o in OBJECTIVES
      ensures Heard(e.notifications, e.slas[t].workspace, t, o, TrackOf(e.slas[t], o))
    {
      TurnIsHeard(d, ts, now, t, o);
    }
  }

  lemma AttachKeepsTold(db: Db, ts: set<TicketId>)
    requires Told(db) && ts <= db.desk.tickets.Keys && ts !! db.slas.Keys
    ensures Told(Attach(db, ts))
  {
    hide WithDefaults, HasAlert;
  }

  lemma ReadKeepsTold(db: Db, ws: WorkspaceId, t: TicketId)
    requires Told(db) && ReadSla(db, ws, t).Success?
    ensures Told(ReadSla(db, ws, t).value)
  {
    if t !in db.slas {
      AttachKeepsTold(db, {t});
    }
    var d := if t in db.slas then db else Attach(db, {t});
    assert d.notifications + multiset{} == d.notifications;
    forall o | o in OBJECTIVES
      ensures Heard(d.notifications, ws, t, o, RecordMet(TrackOf(d.slas[t], o), MetAt(d.desk, ws, t, o)))
    {
      HeardLater(d.notifications, multiset{}, ws, t, o, TrackOf(d.slas[t], o), MetAt(d.desk, ws, t, o));
    }
    hide Heard, Attach;
  }

  lemma StepKeepsTold(db: Db, s: Step)
    requires Told(db)
    ensures Told(Apply(db, s))
  {
    hide Apply, SweepAll, ReadSla, Attach;
    match s {
      case Tick(ws, now) =>
        hide Told;
        TickIsApplied(db, ws, now);
        AttachKeepsTold(db, WithoutSla(db, ws));
        SweepKeepsTold(Materialize(db, ws), Swept(Materialize(db, ws), ws), now);
      case ReadClock(ws, t, now) =>
        hide Told;
        ReadIsApplied(db, ws, t, now);
        if ReadSla(db, ws, t).Success? {
          ReadKeepsTold(db, ws, t);
        }
      case _ =>
        OtherIsApplied(db, s);
    }
  }

  lemma {:induction false} ReachableIsTold(steps: seq<Step>)
    ensures Told(Run(steps))
  {
    if steps != [] {
      ReachableIsTold(steps[..|steps| - 1]);
      StepKeepsTold(Run(steps[..|steps| - 1]), steps[|steps| - 1]);
    }
  }

  /** Right after a tick, an objective that is still open and has reached its deadline has its breach
      notification, and by NotifiedAtMostOnce exactly one. */
  lemma OverdueIsAnnounced(steps: seq<Step>, ws: WorkspaceId, now: int, t: TicketId, o: Objective)
    requires UpTo(steps, now) && InWorkspace(Run(steps).desk, ws, t) && o in OBJECTIVES
    ensures var e := Run(steps + [Tick(ws, now)]);
            t in e.slas && (MetAt(e.desk, ws, t, o) == None && now >= TrackOf(e.slas[t], o).dueAt
                            ==> HasAlert(e.notifications, ws, t, o, SlaBreached))
  {
    hide Run, HasAlert, MetAt;
    TickRefinesReplay(steps, ws, now, t, o);
    ReachableIsTold(steps + [Tick(ws, now)]);
    var e := Run(steps + [Tick(ws, now)]);
    assert Heard(e.notifications, ws, t, o, TrackOf(e.slas[t], o));
  }

  // What a turn does to the flags of an open objective.
  lemma TurnFlags(d: Db, t: TicketId, now: int, o: Objective)
    requires t in d.slas && d.slas[t].policy in d.policies
    requires MetAt(d.desk, d.slas[t].workspace, t, o) == None && TrackOf(d.slas[t], o).metAt == None
    ensures var x, y := TrackOf(d.slas[t], o), TrackOf(Evaluated(d, t, now), o);
            var warning := d.policies[d.slas[t].policy].warningMinutes * MINUTE;
            && y.dueAt == x.dueAt && y.metAt == None
            && (y.breached <==> x.breached || now >= x.dueAt)
            && (y.warningSent <==> x.warningSent || (now >= x.dueAt - warning && (now < x.dueAt || x.breached)))
  {
    hide FirstOutboundAt, FirstResolvedAt;
  }

  /** Right after a tick before the deadline but inside the warning time of the policy as it then stands, an
      objective that is still open has its warning. */
  lemma WarningIsAnnounced(steps: seq<Step>, ws: WorkspaceId, now: int, t: TicketId, o: Objective)
    requires UpTo(steps, now) && InWorkspace(Run(steps).desk, ws, t) && o in OBJECTIVES
    requires MetAt(Run(steps).desk, ws, t, o) == None
    ensures var e := Run(steps + [Tick(ws, now)]);
            && t in e.slas && e.slas[t].policy in e.policies
            && var due, warning := TrackOf(e.slas[t], o).dueAt, e.policies[e.slas[t].policy].warningMinutes * MINUTE;
               due - warning <= now < due ==> HasAlert(e.notifications, ws, t, o, SlaWarning)
  {
    var db := Run(steps);
    var d := Materialize(db, ws);
    ReachableIsClocked(steps, now);
    AttachKeepsClocked(db, WithoutSla(db, ws), now);
    ReachableIsTold(steps + [Tick(ws, now)]);
    RunThenTick(steps, ws, now);
    hide Run, HasAlert, MetAt, Attach, Healthy;
    assert Judged(TrackOf(d.slas[t], o), MetAt(d.desk, ws, t, o), now);
    TurnFlags(d, t, now, o);
    hide Evaluated;
    var e := Evaluate(db, ws, now);
    assert t in Swept(d, ws) && e.slas[t] == Evaluated(d, t, now);
    assert Heard(e.notifications, ws, t, o, TrackOf(e.slas[t], o));
  }

  // ---- and only when due ------------------------------------------------------------------------

  // Those a notification may go to: the ticket's creator, or somebody it has been assigned to.
  predicate WasOwner(desk: Desk, t: TicketId, user: UserId)
    requires t in desk.tickets
  {
    || user == desk.tickets[t].creator
    || exists a :: a in desk.assignments && a.ticket == t && a.assignee == Some(user)
  }

  // The history bears a notification out: it went to an owner, and a breach was one.
  predicate Warranted(db: Db, n: Notification, now: int) {
    && n.ticket in db.slas && InWorkspace(db.desk, n.workspace, n.ticket)
    && db.slas[n.ticket].workspace == n.workspace
    && WasOwner(db.desk, n.ticket, n.user)
    && (n.kind == SlaBreached ==>
          var due := TrackOf(db.slas[n.ticket], n.objective).dueAt;
          var met := MetAt(db.desk, n.workspace, n.ticket, n.objective);
          due <= now && (met == None || met.value >= due))
  }

  predicate AllWarranted(db: Db, now: int) {
    forall n :: n in db.notifications ==> Warranted(db, n, now)
  }

  lemma {:induction false} LastIsListed(log: seq<Assignment>, t: TicketId)
    requires LastAssignee(log, t).Some?
    ensures exists a :: a in log && a.ticket == t && a.assignee == LastAssignee(log, t)
  {
    if log[|log| - 1].ticket != t {
      LastIsListed(log[..|log| - 1], t);
    }
  }

  lemma RecipientOwns(desk: Desk, t: TicketId)
    requires Assigned(desk) && t in desk.tickets
    ensures WasOwner(desk, t, Recipient(desk.tickets[t]))
  {
    if desk.tickets[t].assignee.Some? {
      LastIsListed(desk.assignments, t);
    }
  }

  lemma OwnerStays(desk: Desk, d: Desk, now: int, t: TicketId, user: UserId)
    requires t in desk.tickets && Grows(desk, d, now) && WasOwner(desk, t, user)
    ensures t in d.tickets && d.tickets[t].workspace == desk.tickets[t].workspace && WasOwner(d, t, user)
  {
    if a :| a in desk.assignments && a.ticket == t && a.assignee == Some(user) {
      assert a in d.assignments;
    }
  }

  // A notification borne out stays so: deadlines are frozen, and an objective is met only from now on.
  lemma WarrantStays(db: Db, s: Step, before: int, n: Notification)
    requires Wired(db.desk) && Dated(db.desk, before) && before <= Time(s) && Warranted(db, n, before)
    ensures Warranted(Apply(db, s), n, Time(s))
  {
    DeskOfApply(db, s);
    StepGrows(db.desk, s);
    hide Apply, ApplyDesk, Wired, Dated, Grows, MetAt, WasOwner;
    OwnerStays(db.desk, ApplyDesk(db.desk, s), Time(s), n.ticket, n.user);
    StepFreezes(db, s, n.ticket);
    FrozenRow(db.slas[n.ticket], Apply(db, s).slas[n.ticket], n.objective);
    hide Frozen;
    ClockMoves(db.desk, s, before, n.workspace, n.ticket, n.objective);
  }

  lemma FrozenRow(a: TicketSla, b: TicketSla, o: Objective)
    requires Frozen(a, b)
    ensures b.workspace == a.workspace && b.policy == a.policy && TrackOf(b, o).dueAt == TrackOf(a, o).dueAt
  {
  }

  // How long before the deadline a notification may be sent.
  function Ahead(db: Db, item: TicketSla, kind: NotificationType): int
    requires item.policy in db.policies
  {
    if kind == SlaWarning then db.policies[item.policy].warningMinutes * MINUTE else 0
  }

  // What the sweep sends about an objective, it sends to the recipient, because it is open and due.
  lemma AlertIsDue(d: Db, t: TicketId, now: int, o: Objective)
    requires t in d.slas && t in d.desk.tickets && Alert(d, t, now, o).Some?
    ensures var n, track := Alert(d, t, now, o).value, TrackOf(d.slas[t], o);
            && n.workspace == d.slas[t].workspace && n.ticket == t && n.objective == o
            && n.user == Recipient(d.desk.tickets[t])
            && MetAt(d.desk, n.workspace, t, o) == None
            && (n.kind == SlaBreached ==> now >= track.dueAt)
            && d.slas[t].policy in d.policies
            && now >= track.dueAt - Ahead(d, d.slas[t], n.kind)
  {
    hide FirstOutboundAt, FirstResolvedAt;
  }

  // The notifications after a tick are those before it, and alerts of the sweep.
  lemma TickSends(db: Db, ws: WorkspaceId, now: int, n: Notification)
    requires Evaluate(db, ws, now).notifications[n] > db.notifications[n]
    ensures var d := Materialize(db, ws);
            && n.ticket in Swept(d, ws) && Alert(d, n.ticket, now, n.objective) == Some(n)
            && n.ticket in Evaluate(db, ws, now).slas
            && Frozen(d.slas[n.ticket], Evaluate(db, ws, now).slas[n.ticket])
  {
    var d := Materialize(db, ws);
    var alerts := Alerts(d, Swept(d, ws), now);
    assert multiset(alerts)[n] > 0;
    AlertSpends(d, Swept(d, ws), now, n);
    SweepFreezes(d, Swept(d, ws), now, n.ticket);
    hide Alert, Swept, Frozen;
  }

  lemma NewAlertIsWarranted(db: Db, ws: WorkspaceId, now: int, n: Notification)
    requires Assigned(db.desk) && Evaluate(db, ws, now).notifications[n] > db.notifications[n]
    ensures Warranted(Evaluate(db, ws, now), n, now)
  {
    TickSends(db, ws, now, n);
    var d, e := Materialize(db, ws), Evaluate(db, ws, now);
    assert InWorkspace(d.desk, ws, n.ticket) && d.slas[n.ticket].workspace == ws;
    RecipientOwns(db.desk, n.ticket);
    hide Evaluate, WasOwner, Alert, MetAt;
    AlertIsDue(d, n.ticket, now, n.objective);
    FrozenRow(d.slas[n.ticket], e.slas[n.ticket], n.objective);
    EvaluateKeepsDesk(db, ws, now);
    hide Materialize;
  }

  lemma EvaluateKeepsDesk(db: Db, ws: WorkspaceId, now: int)
    ensures Evaluate(db, ws, now).desk == Materialize(db, ws).desk == db.desk
  {
  }

  lemma StepKeepsWarranted(db: Db, s: Step, before: int)
    requires Wired(db.desk) && Dated(db.desk, before) && before <= Time(s) && Assigned(db.desk)
    requires AllWarranted(db, before)
    ensures AllWarranted(Apply(db, s), Time(s))
  {
    var e := Apply(db, s);
    forall n | n in e.notifications
      ensures Warranted(e, n, Time(s))
    {
      if n in db.notifications {
        hide Apply, Warranted;
        WarrantStays(db, s, before, n);
      } else if s.Tick? {
        hide Warranted, Evaluate;
        NewAlertIsWarranted(db, s.ws, s.at, n);
      } else {
        hide Apply, Warranted;
        OtherStepsAreSilent(db, s);
      }
    }
  }

  /** Every notification of a run is borne out by its history: it went to the ticket's creator or somebody
      the ticket had been assigned to, and a breach names a deadline that has passed and that the objective
      was not met before. */
  lemma {:induction false} NotificationsAreWarranted(steps: seq<Step>, now: int)
    requires UpTo(steps, now)
    ensures AllWarranted(Run(steps), now)
  {
    if steps != [] {
      var front, last := steps[..|steps| - 1], steps[|steps| - 1];
      var db := Run(front);
      NotificationsAreWarranted(front, Time(last));
      ReachableIsHealthy(front, Time(last));
      StepKeepsWarranted(db, last, Time(last));
    }
  }

  // Whom to tell about a ticket: the last that the assignment log gives it to, or its creator if that is nobody.
  function InCharge(desk: Desk, t: TicketId): UserId
    requires t in desk.tickets
  {
    match LastAssignee(desk.assignments, t)
    case Some(user) => user
    case None => desk.tickets[t].creator
  }

  lemma RecipientIsInCharge(desk: Desk, t: TicketId)
    requires Assigned(desk) && t in desk.tickets
    ensures Recipient(desk.tickets[t]) == InCharge(desk, t)
  {
  }

  lemma EvaluateSendsWhatIsDue(db: Db, ws: WorkspaceId, now: int, n: Notification)
    requires Evaluate(db, ws, now).notifications[n] > db.notifications[n]
    ensures var e := Evaluate(db, ws, now);
            && e.desk == db.desk
            && n.workspace == ws && InWorkspace(e.desk, ws, n.ticket) && n.user == Recipient(e.desk.tickets[n.ticket])
            && n.ticket in e.slas && e.slas[n.ticket].policy in e.policies
            && MetAt(e.desk, ws, n.ticket, n.objective) == None
            && now >= TrackOf(e.slas[n.ticket], n.objective).dueAt - Ahead(e, e.slas[n.ticket], n.kind)
  {
    TickSends(db, ws, now, n);
    var d, e := Materialize(db, ws), Evaluate(db, ws, now);
    assert e.policies == d.policies;
    assert InWorkspace(d.desk, ws, n.ticket) && d.slas[n.ticket].workspace == ws;
    EvaluateKeepsDesk(db, ws, now);
    hide Evaluate, Materialize, Alert, MetAt, Recipient;
    AlertIsDue(d, n.ticket, now, n.objective);
    FrozenRow(d.slas[n.ticket], e.slas[n.ticket], n.objective);
    hide Frozen;
  }

  /** And a tick adds a notification only to the ticket's last assignee, or else its creator, about an objective
      that is open, and that has reached its deadline or, for a warning, the warning time of the policy as it
      then stands. */
  lemma TickSendsWhatIsDue(steps: seq<Step>, ws: WorkspaceId, now: int, n: Notification)
    requires UpTo(steps, now)
    requires Run(steps + [Tick(ws, now)]).notifications[n] > Run(steps).notifications[n]
    ensures var e := Run(steps + [Tick(ws, now)]);
            && n.workspace == ws && InWorkspace(e.desk, ws, n.ticket) && n.user == InCharge(e.desk, n.ticket)
            && n.ticket in e.slas && e.slas[n.ticket].policy in e.policies
            && MetAt(e.desk, ws, n.ticket, n.objective) == None
            && now >= TrackOf(e.slas[n.ticket], n.objective).dueAt - Ahead(e, e.slas[n.ticket], n.kind)
  {
    hide Run, Evaluate, MetAt, Recipient, InCharge, Ahead;
    RunThenTick(steps, ws, now);
    EvaluateSendsWhatIsDue(Run(steps), ws, now, n);
    ReachableIsHealthy(steps, now);
    RecipientIsInCharge(Run(steps).desk, n.ticket);
  }

  /** So every notification of a run was sent by one of its ticks, to whoever was in charge of the ticket at
      that tick, about an objective that the history up to then had not met. */
  lemma {:induction false} NotificationsCameFromTicks(steps: seq<Step>, now: int, n: Notification) returns (k: nat)
    requires UpTo(steps, now) && n in Run(steps).notifications
    ensures k < |steps| && steps[k].Tick? && steps[k].ws == n.workspace
    ensures var desk := Run(steps[..k]).desk;
            && InWorkspace(desk, n.workspace, n.ticket) && n.user == InCharge(desk, n.ticket)
            && MetAt(desk, n.workspace, n.ticket, n.objective) == None
    ensures n !in Run(steps[..k]).notifications && n in Run(steps[..k] + [steps[k]]).notifications
  {
    hide Run, Apply, MetAt, InCharge;
    NothingSentYet();
    k := |steps| - 1;
    var front, last := steps[..k], steps[k];
    assert UpTo(front, Time(last)) && front + [last] == steps;
    RunThen(front, last);
    if n in Run(front).notifications {
      k := NotificationsCameFromTicks(front, Time(last), n);
      assert front[..k] == steps[..k];
    } else {
      if !last.Tick? {
        OtherStepsAreSilent(Run(front), last);
      }
      TickSendsWhatIsDue(front, last.ws, last.at, n);
      RunThenTick(front, last.ws, last.at);
      EvaluateKeepsDesk(Run(front), last.ws, last.at);
    }
  }

  lemma NothingSentYet()
    ensures Run([]).notifications == multiset{}
  {
  }

  // ---- counters ---------------------------------------------------------------------------------

  // The notifications that could still be sent for the tickets of ts: one for each open objective and
  // kind whose flag is not set.
  function Pending(slas: map<TicketId, TicketSla>, ts: set<TicketId>): set<(TicketId, Objective, NotificationType)>
    requires ts <= slas.Keys
  {
    set t, o, k | t in ts && o in OBJECTIVES && k in {SlaWarning, SlaBreached}
                  && TrackOf(slas[t], o).metAt.None? && !Spent(TrackOf(slas[t], o), k) :: (t, o, k)
  }

  // The rows once every ticket of ts has been refreshed from history, before any is swept.
  function RefreshAll(d: Db, ts: set<TicketId>): map<TicketId, TicketSla> {
    map t | t in d.slas :: if t in ts then Refreshed(d.desk, d.slas[t].workspace, t, d.slas[t]) else d.slas[t]
  }

  function KeyOfAlert(n: Notification): (TicketId, Objective, NotificationType) {
    (n.ticket, n.objective, n.kind)
  }

  lemma {:induction false} SameCount(alerts: set<Notification>)
    requires forall n, m :: n in alerts && m in alerts && SameKey(n, m) ==> n == m
    ensures |set n | n in alerts :: KeyOfAlert(n)| == |alerts|
    decreases alerts
  {
    if alerts != {} {
      var n :| n in alerts;
      var rest := alerts - {n};
      SameCount(rest);
      var keys := set m | m in rest :: KeyOfAlert(m);
      assert KeyOfAlert(n) !in keys by {
        forall m | m in rest
          ensures KeyOfAlert(m) != KeyOfAlert(n)
        {
          assert !SameKey(m, n);
        }
      }
      assert (set m | m in alerts :: KeyOfAlert(m)) == keys + {KeyOfAlert(n)};
    }
  }

  // What was pending is still pending or has just been sent.
  lemma PendingOrSent(d: Db, ts: set<TicketId>, now: int, p: (TicketId, Objective, NotificationType))
    requires ts <= d.slas.Keys && ts <= d.desk.tickets.Keys && p in Pending(RefreshAll(d, ts), ts)
    ensures p in Pending(SweepAll(d, ts, now).slas, ts) || exists n :: n in Alerts(d, ts, now) && KeyOfAlert(n) == p
  {
    hide FirstOutboundAt, FirstResolvedAt, Refreshed;
    var a := Alert(d, p.0, now, p.1);
    if a.Some? && a.value.kind == p.2 {
      assert a.value in Alerts(d, ts, now) && KeyOfAlert(a.value) == p;
    }
  }

  // What is pending after the sweep was pending before it, and so was what it sent.
  lemma PendingBefore(d: Db, ts: set<TicketId>, now: int)
    requires ts <= d.slas.Keys && ts <= d.desk.tickets.Keys
    ensures Pending(SweepAll(d, ts, now).slas, ts) <= Pending(RefreshAll(d, ts), ts)
    ensures forall n :: n in Alerts(d, ts, now) ==>
              && KeyOfAlert(n) in Pending(RefreshAll(d, ts), ts)
              && KeyOfAlert(n) !in Pending(SweepAll(d, ts, now).slas, ts)
  {
    hide FirstOutboundAt, FirstResolvedAt, Refreshed;
    forall n | n in Alerts(d, ts, now)
      ensures n.ticket in ts && Alert(d, n.ticket, now, n.objective) == Some(n)
    {
      AlertSpends(d, ts, now, n);
    }
  }

  lemma PendingShrinks(d: Db, ts: set<TicketId>, now: int)
    requires ts <= d.slas.Keys && ts <= d.desk.tickets.Keys
    ensures Pending(RefreshAll(d, ts), ts)
            == Pending(SweepAll(d, ts, now).slas, ts) + (set n | n in Alerts(d, ts, now) :: KeyOfAlert(n))
    ensures Pending(SweepAll(d, ts, now).slas, ts) !! (set n | n in Alerts(d, ts, now) :: KeyOfAlert(n))
  {
    PendingBefore(d, ts, now);
    forall p | p in Pending(RefreshAll(d, ts), ts)
      ensures p in Pending(SweepAll(d, ts, now).slas, ts) || exists n :: n in Alerts(d, ts, now) && KeyOfAlert(n) == p
    {
      PendingOrSent(d, ts, now, p);
    }
    hide Pending, SweepAll, RefreshAll, Alerts;
  }

  lemma KindsPartition(alerts: set<Notification>)
    ensures |alerts| == |OfKind(alerts, SlaWarning)| + |OfKind(alerts, SlaBreached)|
  {
    assert alerts == OfKind(alerts, SlaWarning) + OfKind(alerts, SlaBreached);
  }

  lemma AlertKeysDiffer(d: Db, ts: set<TicketId>, now: int)
    requires ts <= d.slas.Keys && ts <= d.desk.tickets.Keys
    ensures forall n, m :: n in Alerts(d, ts, now) && m in Alerts(d, ts, now) && SameKey(n, m) ==> n == m
  {
    forall n | n in Alerts(d, ts, now)
      ensures Alert(d, n.ticket, now, n.objective) == Some(n)
    {
      AlertSpends(d, ts, now, n);
    }
  }

  // The tickets of the workspace with a row that has an open objective.
  function OpenTickets(d: Db, ws: WorkspaceId): set<TicketId> {
    set t | t in d.slas && d.slas[t].workspace == ws && InWorkspace(d.desk, ws, t)
            && (d.slas[t].response.metAt == None || d.slas[t].resolution.metAt == None)
  }

  /** A sweep returns how many tickets it evaluated, those with an open objective once every ticket has a row,
      and how many warnings and how many breaches are among the notification rows it appended; together these
      are the drop in the number of notifications that could still be sent. */
  lemma CountersCount(db: Db, ws: WorkspaceId, now: int)
    ensures var d := Materialize(db, ws);
            var ts := Swept(d, ws);
            var sent := EvaluationAlerts(db, ws, now);
            var counts := EvaluationCounts(db, ws, now);
            && Evaluate(db, ws, now).notifications == db.notifications + multiset(sent)
            && counts.evaluated == |OpenTickets(d, ws)|
            && counts.warnings == |set n | n in sent && n.kind == SlaWarning|
            && counts.breaches == |set n | n in sent && n.kind == SlaBreached|
            && |Pending(RefreshAll(d, ts), ts)|
               == |Pending(Evaluate(db, ws, now).slas, ts)| + counts.warnings + counts.breaches
  {
    var d := Materialize(db, ws);
    var ts := Swept(d, ws);
    var alerts := Alerts(d, ts, now);
    assert ts == OpenTickets(d, ws);
    PendingShrinks(d, ts, now);
    AlertKeysDiffer(d, ts, now);
    hide Alerts, Pending, RefreshAll, Materialize, Swept, OpenTickets;
    SameCount(alerts);
    KindsPartition(alerts);
    assert OfKind(alerts, SlaWarning) == set n | n in alerts && n.kind == SlaWarning;
    assert OfKind(alerts, SlaBreached) == set n | n in alerts && n.kind == SlaBreached;
  }

  // ---- quiescence -------------------------------------------------------------------------------

  // With history and policies fixed, a second refresh changes nothing.
  lemma RefreshTwice(track: Track, history: Option<int>)
    ensures RecordMet(RecordMet(track, history), history) == RecordMet(track, history)
  {
  }

  // The row of a ticket after one, two and three turns at the same instant.
  lemma ThirdTurnIsIdle(db: Db, e: Db, f: Db, t: TicketId, now: int)
    requires t in db.slas && t in e.slas && t in f.slas
    requires e.desk == db.desk && f.desk == db.desk && e.policies == db.policies && f.policies == db.policies
    requires e.slas[t] == Evaluated(db, t, now) && f.slas[t] == Evaluated(e, t, now)
    ensures Evaluated(f, t, now) == f.slas[t]
    ensures t in f.desk.tickets ==> forall o :: Alert(f, t, now, o) == None
  {
    hide FirstOutboundAt, FirstResolvedAt;
    var ws := db.slas[t].workspace;
    RefreshTwice(db.slas[t].response, FirstOutboundAt(db.desk, ws, t));
    RefreshTwice(db.slas[t].resolution, FirstResolvedAt(db.desk, ws, t));
  }

  // After one sweep nothing is left to attach, and only tickets that were swept can be swept again.
  lemma SweepAgain(db: Db, ws: WorkspaceId, now: int)
    ensures var d, e := Materialize(db, ws), Evaluate(db, ws, now);
            && Materialize(e, ws) == e
            && e.desk == db.desk && e.policies == d.policies
            && Swept(e, ws) <= Swept(d, ws)
            && e.slas.Keys == d.slas.Keys
            && forall t :: t in d.slas ==> e.slas[t] == if t in Swept(d, ws) then Evaluated(d, t, now) else d.slas[t]
  {
    var d, e := Materialize(db, ws), Evaluate(db, ws, now);
    assert WithoutSla(e, ws) == {};
    Operations.AttachNone(e);
    forall t | t in Swept(e, ws)
      ensures t in Swept(d, ws)
    {
      hide FirstOutboundAt, FirstResolvedAt;
    }
  }

  lemma IdleSweep(f: Db, ts: set<TicketId>, now: int)
    requires ts <= f.slas.Keys && ts <= f.desk.tickets.Keys
    requires forall t :: t in ts ==> Evaluated(f, t, now) == f.slas[t]
    requires forall t, o :: t in ts ==> Alert(f, t, now, o) == None
    ensures SweepAll(f, ts, now) == f && Alerts(f, ts, now) == {}
  {
    hide Evaluated, Alert;
    assert Alerts(f, ts, now) == {};
    assert SweepAll(f, ts, now).slas == f.slas;
  }

  lemma SecondSweepRow(db: Db, ws: WorkspaceId, now: int, t: TicketId)
    requires t in Swept(Evaluate(Evaluate(db, ws, now), ws, now), ws)
    ensures var second := Evaluate(Evaluate(db, ws, now), ws, now);
            Evaluated(second, t, now) == second.slas[t] && forall o :: Alert(second, t, now, o) == None
  {
    var d, first := Materialize(db, ws), Evaluate(db, ws, now);
    var second := Evaluate(first, ws, now);
    SweepAgain(db, ws, now);
    SweepAgain(first, ws, now);
    assert d.desk == db.desk;
    hide Evaluate, Materialize, Evaluated, Alert;
    ThirdTurnIsIdle(d, first, second, t, now);
  }

  /** With history, policies and the instant fixed, repeated sweeps reach a fixed point by the second:
      the third sends nothing and changes no row. */
  lemma ThirdSweepIsIdle(db: Db, ws: WorkspaceId, now: int)
    ensures var second := Evaluate(Evaluate(db, ws, now), ws, now);
            && Evaluate(second, ws, now) == second
            && EvaluationAlerts(second, ws, now) == {}
  {
    var first := Evaluate(db, ws, now);
    var second := Evaluate(first, ws, now);
    SweepAgain(first, ws, now);
    var ts := Swept(second, ws);
    forall t | t in ts
      ensures Evaluated(second, t, now) == second.slas[t] && forall o :: Alert(second, t, now, o) == None
    {
      SecondSweepRow(db, ws, now, t);
    }
    hide SweepAll, Materialize, Evaluated, Alert, Alerts;
    IdleSweep(second, ts, now);
  }
}
