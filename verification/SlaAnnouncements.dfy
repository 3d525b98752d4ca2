/** Exactly what is announced: the notifications of a run, read off its history and its ticks. */
module SlaAnnouncements {
  import opened Wrappers
  import opened TicketEnums
  import opened Store
  import opened SlaClock
  import opened History
  import opened Lifecycle
  import opened SlaHistory
  import opened SlaDeadlines
  import opened SlaAlerts

  // ---- flags and notifications ------------------------------------------------------------------

  // A flag of an open objective is up exactly when its notification has been sent.
  lemma FlagsAreAlerts(steps: seq<Step>, now: int, ws: WorkspaceId, t: TicketId, o: Objective)
    requires UpTo(steps, now) && o in OBJECTIVES
    ensures var db := Run(steps);
            if t !in db.slas then forall kind :: !HasAlert(db.notifications, ws, t, o, kind)
            else
              db.slas[t].workspace == ws ==>
                var track := TrackOf(db.slas[t], o);
                && (track.warningSent <==> HasAlert(db.notifications, ws, t, o, SlaWarning))
                && (track.metAt == None ==> (track.breached <==> HasAlert(db.notifications, ws, t, o, SlaBreached)))
  {
    ReachableIsTold(steps);
    NotifiedAtMostOnce(steps);
    hide Run;
    forall kind | HasAlert(Run(steps).notifications, ws, t, o, kind)
      ensures t in Run(steps).slas && Spent(TrackOf(Run(steps).slas[t], o), kind)
    {
      AlertIsSpent(Run(steps), ws, t, o, kind);
    }
    hide HasAlert, Announced;
    if t in Run(steps).slas {
      assert Heard(Run(steps).notifications, Run(steps).slas[t].workspace, t, o, TrackOf(Run(steps).slas[t], o));
    }
  }

  lemma AlertIsSpent(db: Db, ws: WorkspaceId, t: TicketId, o: Objective, kind: NotificationType)
    requires Announced(db) && HasAlert(db.notifications, ws, t, o, kind)
    ensures t in db.slas && Spent(TrackOf(db.slas[t], o), kind)
  {
    var n :| n in db.notifications && n.workspace == ws && n.ticket == t && n.objective == o && n.kind == kind;
    assert IsSpent(db.slas, n);
  }

  lemma AlertStays(db: Db, s: Step, ws: WorkspaceId, t: TicketId, o: Objective, kind: NotificationType)
    requires HasAlert(db.notifications, ws, t, o, kind)
    ensures HasAlert(Apply(db, s).notifications, ws, t, o, kind)
  {
    var n :| n in db.notifications && n.workspace == ws && n.ticket == t && n.objective == o && n.kind == kind;
    if s.Tick? {
      TickIsApplied(db, s.ws, s.at);
      hide Apply, Alerts;
    } else {
      OtherStepsAreSilent(db, s);
      hide Apply;
    }
    assert n in Apply(db, s).notifications;
  }

  // ---- policies are active ----------------------------------------------------------------------

  predicate AllActive(db: Db) {
    forall key :: key in db.policies ==> db.policies[key].active
  }

  lemma AttachKeepsActive(db: Db, ts: set<TicketId>)
    requires AllActive(db) && ts <= db.desk.tickets.Keys
    ensures AllActive(Attach(db, ts))
  {
    hide FreshSla;
  }

  lemma OtherKeepsActive(db: Db, s: Step)
    requires AllActive(db) && !IsTick(s)
    ensures AllActive(Apply(db, s))
  {
    hide DeskEffect;
  }

  lemma StepKeepsActive(db: Db, s: Step)
    requires AllActive(db)
    ensures AllActive(Apply(db, s))
  {
    hide Apply, Attach, SweepAll, Refreshed;
    match s {
      case Tick(ws, now) =>
        TickIsApplied(db, ws, now);
        AttachKeepsActive(db, WithoutSla(db, ws));
        SweepKeepsPolicies(Materialize(db, ws), Swept(Materialize(db, ws), ws), now);
      case ReadClock(ws, t, now) =>
        ReadIsApplied(db, ws, t, now);
        if InWorkspace(db.desk, ws, t) {
          AttachKeepsActive(db, {t});
        }
      case _ => OtherKeepsActive(db, s);
    }
  }

  lemma SweepKeepsPolicies(d: Db, ts: set<TicketId>, now: int)
    requires ts <= d.slas.Keys && ts <= d.desk.tickets.Keys
    ensures SweepAll(d, ts, now).policies == d.policies
  {
  }

  lemma {:induction false} ReachableIsActive(steps: seq<Step>)
    ensures AllActive(Run(steps))
  {
    if steps != [] {
      ReachableIsActive(steps[..|steps| - 1]);
      StepKeepsActive(Run(steps[..|steps| - 1]), steps[|steps| - 1]);
    }
  }

  // The policy row of an SLA is the one the history has put in force for it.
  lemma RowIsInForce(steps: seq<Step>, ws: WorkspaceId, at: int, key: PolicyKey)
    requires var e := Run(steps + [Tick(ws, at)]); key in e.policies
    ensures Run(steps + [Tick(ws, at)]).policies[key] == PolicyInForce(Run(Erase(steps)), key)
  {
    var all := steps + [Tick(ws, at)];
    ReachableIsActive(all);
    PolicyIsHistory(all, key);
    assert all[..|all| - 1] == steps && all[|all| - 1] == Tick(ws, at);
    assert Erase(all) == Erase(steps);
    hide Run;
  }

  // ---- one step ---------------------------------------------------------------------------------

  // A tick that finds the objective open.
  predicate FindsOpen(desk: Desk, s: Step, t: TicketId, o: Objective) {
    s.Tick? && InWorkspace(desk, s.ws, t) && MetAt(desk, s.ws, t, o) == None
  }

  // The warning time that a history has put in force for a policy.
  function WarningBy(history: seq<Step>, key: PolicyKey): int {
    PolicyInForce(Run(history), key).warningMinutes * MINUTE
  }

  lemma OpenTickFlags(steps: seq<Step>, ws: WorkspaceId, at: int, t: TicketId, o: Objective)
    requires UpTo(steps, at) && FindsOpen(Run(steps).desk, Tick(ws, at), t, o)
    ensures var d, e := Materialize(Run(steps), ws), Run(steps + [Tick(ws, at)]);
            && t in d.slas && t in e.slas && d.slas[t].workspace == e.slas[t].workspace == ws
            && e.slas[t].policy == d.slas[t].policy
            && (t in Run(steps).slas ==> Run(steps).slas[t] == d.slas[t])
            && (t !in Run(steps).slas ==> TrackOf(d.slas[t], o) == FreshTrack(TrackOf(d.slas[t], o).dueAt))
            && var x, y := TrackOf(d.slas[t], o), TrackOf(e.slas[t], o);
               var warning := WarningBy(Erase(steps), e.slas[t].policy);
               && x.metAt == None && y.metAt == None && y.dueAt == x.dueAt
               && (y.breached <==> x.breached || at >= x.dueAt)
               && (y.warningSent <==> x.warningSent || (at >= x.dueAt - warning && (at < x.dueAt || x.breached)))
  {
    var db := Run(steps);
    var d, e := Materialize(db, ws), Evaluate(db, ws, at);
    ReachableIsClocked(steps, at);
    AttachKeepsClocked(db, WithoutSla(db, ws), at);
    RunThenTick(steps, ws, at);
    RowIsInForce(steps, ws, at, d.slas[t].policy) by { hide Run; assert t in d.slas && d.slas[t].policy in d.policies; }
    hide Run, MetAt, Healthy, Erase, PolicyInForce;
    assert Judged(TrackOf(d.slas[t], o), MetAt(d.desk, ws, t, o), at);
    TurnFlags(d, t, at, o);
    hide Evaluated;
    assert t in Swept(d, ws) && e.slas[t] == Evaluated(d, t, at);
    SweepFreezes(d, Swept(d, ws), at, t);
  }

  // What a tick that finds the objective open makes of its notifications.
  lemma OpenTickAnnounces(steps: seq<Step>, ws: WorkspaceId, at: int, t: TicketId, o: Objective)
    requires UpTo(steps, at) && FindsOpen(Run(steps).desk, Tick(ws, at), t, o) && o in OBJECTIVES
    ensures var before, e := Run(steps).notifications, Run(steps + [Tick(ws, at)]);
            && t in e.slas && e.slas[t].workspace == ws
            && var due, warning := TrackOf(e.slas[t], o).dueAt, WarningBy(Erase(steps), e.slas[t].policy);
               && (HasAlert(e.notifications, ws, t, o, SlaBreached)
                   <==> HasAlert(before, ws, t, o, SlaBreached) || at >= due)
               && (HasAlert(e.notifications, ws, t, o, SlaWarning)
                   <==> HasAlert(before, ws, t, o, SlaWarning)
                        || (at >= due - warning && (at < due || HasAlert(before, ws, t, o, SlaBreached))))
  {
    assert UpTo(steps + [Tick(ws, at)], at);
    hide Run, HasAlert, Materialize, WarningBy, UpTo, Erase, FindsOpen;
    OpenTickFlags(steps, ws, at, t, o);
    FlagsAreAlerts(steps, at, ws, t, o);
    FlagsAreAlerts(steps + [Tick(ws, at)], at, ws, t, o);
  }

  // Any other step leaves them alone.
  lemma OtherStepIsQuiet(steps: seq<Step>, s: Step, ws: WorkspaceId, t: TicketId, o: Objective, kind: NotificationType)
    requires UpTo(steps, Time(s)) && !FindsOpen(Run(steps).desk, s, t, o)
    ensures HasAlert(Run(steps + [s]).notifications, ws, t, o, kind)
            <==> HasAlert(Run(steps).notifications, ws, t, o, kind)
  {
    var db, e := Run(steps), Run(steps + [s]);
    RunThen(steps, s);
    DeskOfApply(db, s);
    hide Run, Apply, MetAt;
    if HasAlert(db.notifications, ws, t, o, kind) {
      AlertStays(db, s, ws, t, o, kind);
    } else if HasAlert(e.notifications, ws, t, o, kind) {
      var n :| n in e.notifications && n.workspace == ws && n.ticket == t && n.objective == o && n.kind == kind;
      assert n !in db.notifications;
      if s.Tick? {
        TickSendsWhatIsDue(steps, s.ws, s.at, n);
        TickIsApplied(db, s.ws, s.at);
        EvaluateKeepsDesk(db, s.ws, s.at);
      } else {
        OtherStepsAreSilent(db, s);
      }
    }
  }

  // ---- whole runs -------------------------------------------------------------------------------

  // Step k is a tick that finds the objective open at or after a deadline.
  predicate Catches(steps: seq<Step>, k: nat, t: TicketId, o: Objective, due: int)
    requires k < |steps|
  {
    FindsOpen(Run(Erase(steps[..k])).desk, steps[k], t, o) && steps[k].at >= due
  }

  predicate Caught(steps: seq<Step>, n: nat, t: TicketId, o: Objective, due: int)
    requires n <= |steps|
  {
    exists k | 0 <= k < n :: Catches(steps, k, t, o, due)
  }

  // Step k is a tick that finds it open in its warning time, before the deadline or once the breach is out.
  predicate Warns(steps: seq<Step>, k: nat, t: TicketId, o: Objective, due: int, key: PolicyKey)
    requires k < |steps|
  {
    && FindsOpen(Run(Erase(steps[..k])).desk, steps[k], t, o)
    && steps[k].at >= due - WarningBy(Erase(steps[..k]), key)
    && (steps[k].at < due || Caught(steps, k, t, o, due))
  }

  predicate Warned(steps: seq<Step>, n: nat, t: TicketId, o: Objective, due: int, key: PolicyKey)
    requires n <= |steps|
  {
    exists k | 0 <= k < n :: Warns(steps, k, t, o, due, key)
  }

  lemma CatchesFront(steps: seq<Step>, m: nat, k: nat, t: TicketId, o: Objective, due: int)
    requires k < m <= |steps|
    ensures Catches(steps, k, t, o, due) == Catches(steps[..m], k, t, o, due)
  {
    assert steps[..m][..k] == steps[..k];
  }

  lemma CaughtFront(steps: seq<Step>, m: nat, n: nat, t: TicketId, o: Objective, due: int)
    requires n <= m <= |steps|
    ensures Caught(steps, n, t, o, due) == Caught(steps[..m], n, t, o, due)
  {
    forall k | 0 <= k < n
      ensures Catches(steps, k, t, o, due) == Catches(steps[..m], k, t, o, due)
    {
      CatchesFront(steps, m, k, t, o, due);
    }
    hide Catches;
  }

  lemma WarnsFront(steps: seq<Step>, m: nat, k: nat, t: TicketId, o: Objective, due: int, key: PolicyKey)
    requires k < m <= |steps|
    ensures Warns(steps, k, t, o, due, key) == Warns(steps[..m], k, t, o, due, key)
  {
    assert steps[..m][..k] == steps[..k];
    CaughtFront(steps, m, k, t, o, due);
    hide Caught;
  }

  lemma WarnedFront(steps: seq<Step>, m: nat, t: TicketId, o: Objective, due: int, key: PolicyKey)
    requires m <= |steps|
    ensures Warned(steps, m, t, o, due, key) == Warned(steps[..m], m, t, o, due, key)
  {
    forall k | 0 <= k < m
      ensures Warns(steps, k, t, o, due, key) == Warns(steps[..m], k, t, o, due, key)
    {
      WarnsFront(steps, m, k, t, o, due, key);
    }
    hide Warns;
  }

  // The parameters of the row, if there is one.
  predicate RowHas(db: Db, ws: WorkspaceId, t: TicketId, o: Objective, due: int, key: PolicyKey) {
    t in db.slas ==> db.slas[t].workspace == ws && TrackOf(db.slas[t], o).dueAt == due && db.slas[t].policy == key
  }

  lemma RowHadIt(steps: seq<Step>, s: Step, ws: WorkspaceId, t: TicketId, o: Objective, due: int, key: PolicyKey)
    requires RowHas(Run(steps + [s]), ws, t, o, due, key)
    ensures RowHas(Run(steps), ws, t, o, due, key)
  {
    RunThen(steps, s);
    hide Run, Apply;
    if t in Run(steps).slas {
      StepFreezes(Run(steps), s, t);
      FrozenRow(Run(steps).slas[t], Run(steps + [s]).slas[t], o);
    }
  }

  // The notifications of an objective are the ones its ticks account for.
  predicate Accounted(steps: seq<Step>, ws: WorkspaceId, t: TicketId, o: Objective, due: int, key: PolicyKey) {
    && (HasAlert(Run(steps).notifications, ws, t, o, SlaBreached) <==> Caught(steps, |steps|, t, o, due))
    && (HasAlert(Run(steps).notifications, ws, t, o, SlaWarning) <==> Warned(steps, |steps|, t, o, due, key))
  }

  predicate Lives(desk: Desk, ws: WorkspaceId, t: TicketId) {
    t in desk.tickets ==> desk.tickets[t].workspace == ws
  }

  lemma LivedThere(steps: seq<Step>, s: Step, ws: WorkspaceId, t: TicketId)
    requires Lives(Run(steps + [s]).desk, ws, t)
    ensures Lives(Run(steps).desk, ws, t)
  {
    RunThen(steps, s);
    hide Run, Apply;
    if t in Run(steps).desk.tickets {
      TicketStays(Run(steps), s, t);
    }
  }

  lemma StepIsAccounted(steps: seq<Step>, s: Step, ws: WorkspaceId, t: TicketId, o: Objective, due: int, key: PolicyKey)
    requires UpTo(steps, Time(s)) && o in OBJECTIVES && Lives(Run(steps).desk, ws, t)
    requires RowHas(Run(steps + [s]), ws, t, o, due, key) && Accounted(steps, ws, t, o, due, key)
    ensures Accounted(steps + [s], ws, t, o, due, key)
  {
    hide Run, Erase, UpTo, HasAlert, RowHas, FindsOpen, WarningBy, Caught, Catches, Warned, Warns, Lives;
    var all := steps + [s];
    assert all[..|all| - 1] == steps && all[|all| - 1] == s;
    LastCatches(all, t, o, due);
    LastWarns(all, t, o, due, key);
    if FindsOpen(Run(steps).desk, s, t, o) {
      TickIsOpen(Run(steps).desk, s, t, o, ws);
      OpenTickAnnounces(steps, ws, s.at, t, o);
      RowIs(Run(all), ws, t, o, due, key);
    } else {
      OtherStepIsQuiet(steps, s, ws, t, o, SlaBreached);
      OtherStepIsQuiet(steps, s, ws, t, o, SlaWarning);
    }
  }

  lemma NothingIsAccounted(ws: WorkspaceId, t: TicketId, o: Objective, due: int, key: PolicyKey)
    ensures Accounted([], ws, t, o, due, key)
  {
  }

  lemma {:induction false} RunIsAccounted(steps: seq<Step>, now: int, ws: WorkspaceId, t: TicketId, o: Objective,
                                          due: int, key: PolicyKey)
    requires UpTo(steps, now) && o in OBJECTIVES && Lives(Run(steps).desk, ws, t)
    requires RowHas(Run(steps), ws, t, o, due, key)
    ensures Accounted(steps, ws, t, o, due, key)
  {
    hide Run, Accounted, RowHas, Lives;
    if steps == [] {
      NothingIsAccounted(ws, t, o, due, key);
    } else {
      var front, last := steps[..|steps| - 1], steps[|steps| - 1];
      assert UpTo(front, Time(last)) && front + [last] == steps;
      RowHadIt(front, last, ws, t, o, due, key);
      LivedThere(front, last, ws, t);
      RunIsAccounted(front, Time(last), ws, t, o, due, key);
      StepIsAccounted(front, last, ws, t, o, due, key);
    }
  }

  lemma RowOfRun(steps: seq<Step>, now: int, t: TicketId, o: Objective)
    requires UpTo(steps, now) && t in Run(steps).slas && o in OBJECTIVES
    ensures var item := Run(steps).slas[t];
            Accounted(steps, item.workspace, t, o, TrackOf(item, o).dueAt, item.policy)
  {
    ReachableIsClocked(steps, now);
    var item := Run(steps).slas[t];
    assert InWorkspace(Run(steps).desk, item.workspace, t);
    hide Run, Accounted, Healthy;
    RunIsAccounted(steps, now, item.workspace, t, o, TrackOf(item, o).dueAt, item.policy);
  }

  /** An objective has its breach notification exactly when some tick has found it open at or after its
      deadline; one that is met late but before such a tick is breached and never announced. */
  lemma BreachIsAnnouncedIff(steps: seq<Step>, now: int, t: TicketId, o: Objective)
    requires UpTo(steps, now) && t in Run(steps).slas && o in OBJECTIVES
    ensures var item := Run(steps).slas[t];
            HasAlert(Run(steps).notifications, item.workspace, t, o, SlaBreached)
            <==> exists k | 0 <= k < |steps| :: Catches(steps, k, t, o, TrackOf(item, o).dueAt)
  {
    RowOfRun(steps, now, t, o);
    hide Run, HasAlert, Catches;
  }

  /** And it has its warning exactly when some tick has found it open in the warning time that the history
      had by then put in force, either before the deadline or after an earlier tick had announced the breach. */
  lemma WarningIsAnnouncedIff(steps: seq<Step>, now: int, t: TicketId, o: Objective)
    requires UpTo(steps, now) && t in Run(steps).slas && o in OBJECTIVES
    ensures var item := Run(steps).slas[t];
            HasAlert(Run(steps).notifications, item.workspace, t, o, SlaWarning)
            <==> exists k | 0 <= k < |steps| :: Warns(steps, k, t, o, TrackOf(item, o).dueAt, item.policy)
  {
    RowOfRun(steps, now, t, o);
    hide Run, HasAlert, Warns;
  }

  /** So an objective met late, before any tick has run past its deadline, is recorded as breached by the
      next tick or read, and no breach notification is sent. */
  lemma LateAnswerIsSilent(steps: seq<Step>, s: Step, t: TicketId, o: Objective)
    requires UpTo(steps, Time(s)) && Looks(Run(steps).desk, s, t) && o in OBJECTIVES
    requires t in Run(steps + [s]).slas
    requires var due := TrackOf(Run(steps + [s]).slas[t], o).dueAt;
             var met := MetAt(Run(steps).desk, Run(steps).desk.tickets[t].workspace, t, o);
             && met.Some? && met.value > due
             && forall k :: 0 <= k < |steps| && steps[k].Tick? ==> steps[k].at < due
    ensures var e := Run(steps + [s]);
            TrackOf(e.slas[t], o).breached && !HasAlert(e.notifications, e.slas[t].workspace, t, o, SlaBreached)
  {
    hide Run, HasAlert, UpTo, Erase, MetAt, Looks, FindsOpen;
    var all, due := steps + [s], TrackOf(Run(steps + [s]).slas[t], o).dueAt;
    LookRecordsHistory(steps, s, t, o);
    UpToLast(steps, s);
    BreachIsAnnouncedIff(all, Time(s), t, o);
    forall k | 0 <= k < |all|
      ensures !Catches(all, k, t, o, due)
    {
      if k == |steps| {
        assert all[..k] == steps && all[k] == s;
        TicksLeaveNoTrace(steps);
        LooksIsOnTicket(Run(steps).desk, s, t);
        MetIsNotOpen(Run(steps).desk, s, t, o);
      } else if !all[k].Tick? {
        NotOpenUnlessTick(Run(Erase(all[..k])).desk, all[k], t, o);
      }
    }
    hide Catches;
  }

  lemma UpToLast(steps: seq<Step>, s: Step)
    requires UpTo(steps, Time(s))
    ensures UpTo(steps + [s], Time(s))
  {
  }

  lemma NotOpenUnlessTick(desk: Desk, s: Step, t: TicketId, o: Objective)
    requires !s.Tick?
    ensures !FindsOpen(desk, s, t, o)
  {
  }

  lemma MetIsNotOpen(desk: Desk, s: Step, t: TicketId, o: Objective)
    requires t in desk.tickets && MetAt(desk, desk.tickets[t].workspace, t, o).Some?
    ensures !FindsOpen(desk, s, t, o)
  {
    hide MetAt;
  }

  lemma RowIs(db: Db, ws: WorkspaceId, t: TicketId, o: Objective, due: int, key: PolicyKey)
    requires t in db.slas && RowHas(db, ws, t, o, due, key)
    ensures TrackOf(db.slas[t], o).dueAt == due && db.slas[t].policy == key
  {
  }

  lemma TickIsOpen(desk: Desk, s: Step, t: TicketId, o: Objective, ws: WorkspaceId)
    requires FindsOpen(desk, s, t, o) && Lives(desk, ws, t)
    ensures s.Tick? && s == Tick(ws, s.at)
  {
  }

  lemma LastCatches(steps: seq<Step>, t: TicketId, o: Objective, due: int)
    requires steps != []
    ensures var n := |steps| - 1;
            var opens := FindsOpen(Run(steps[..n]).desk, steps[n], t, o);
            Caught(steps, |steps|, t, o, due)
            <==> Caught(steps[..n], n, t, o, due) || (opens && steps[n].Tick? && steps[n].at >= due)
  {
    var n := |steps| - 1;
    TicksLeaveNoTrace(steps[..n]);
    CaughtFront(steps, n, n, t, o, due);
    hide Run, Erase, MetAt;
    assert Caught(steps, |steps|, t, o, due) <==> Caught(steps, n, t, o, due) || Catches(steps, n, t, o, due);
  }

  lemma LastWarns(steps: seq<Step>, t: TicketId, o: Objective, due: int, key: PolicyKey)
    requires steps != []
    ensures var n := |steps| - 1;
            var opens := FindsOpen(Run(steps[..n]).desk, steps[n], t, o);
            Warned(steps, |steps|, t, o, due, key)
            <==> Warned(steps[..n], n, t, o, due, key)
                 || (opens && steps[n].Tick? && steps[n].at >= due - WarningBy(Erase(steps[..n]), key)
                     && (steps[n].at < due || Caught(steps[..n], n, t, o, due)))
  {
    var n := |steps| - 1;
    TicksLeaveNoTrace(steps[..n]);
    WarnedFront(steps, n, t, o, due, key);
    CaughtFront(steps, n, n, t, o, due);
    hide Run, Erase, MetAt, Caught, WarningBy;
    assert Warned(steps, |steps|, t, o, due, key)
           <==> Warned(steps, n, t, o, due, key) || Warns(steps, n, t, o, due, key);
  }

  // ---- one late reply ---------------------------------------------------------------------------

  // An urgent ticket is due a response within fifteen minutes; it gets one at sixteen, and the next tick
  // runs at seventeen.
  const LATE_REPLY: seq<Step> := [AddClient(0, 0, 0), NewTicket(0, 0, 0, 0, Urgent, 0),
                                  NewConversation(0, 0, 0, Web, 0),
                                  NewMessage(0, 0, 0, 0, 0, Outbound, "", 16 * MINUTE)]

  lemma OpensTicket()
    ensures var db := Run([LATE_REPLY[0]] + [LATE_REPLY[1]]);
            && db.slas == map[] && db.policies == map[] && db.desk.conversations == [] && db.desk.messages == []
            && db.desk.tickets == map[0 := Ticket(0, 0, 0, None, New, Urgent, 0)]
  {
    assert [LATE_REPLY[0]] == [] + [LATE_REPLY[0]];
    RunThen([], LATE_REPLY[0]);
    RunThen([LATE_REPLY[0]], LATE_REPLY[1]);
  }

  lemma Replies(db: Db)
    requires db.desk.conversations == [] && db.desk.messages == []
    requires db.desk.tickets == map[0 := Ticket(0, 0, 0, None, New, Urgent, 0)]
    ensures var d := ApplyDesk(ApplyDesk(db.desk, LATE_REPLY[2]), LATE_REPLY[3]);
            && d.tickets == db.desk.tickets && d.conversations == [Conversation(0, 0, 0, Web)]
            && d.messages == [Message(0, 0, 0, Some(0), Outbound, "", 16 * MINUTE)]
  {
    var c := ApplyDesk(db.desk, LATE_REPLY[2]);
    assert c.conversations == [Conversation(0, 0, 0, Web)] && c.messages == [] && c.tickets == db.desk.tickets;
    assert c.conversations[0] in c.conversations;
  }

  lemma LateReplyRun()
    ensures var db := Run(LATE_REPLY);
            && db.slas == map[] && db.policies == map[]
            && 0 in db.desk.tickets && db.desk.tickets[0] == Ticket(0, 0, 0, None, New, Urgent, 0)
            && db.desk.conversations == [Conversation(0, 0, 0, Web)]
            && db.desk.messages == [Message(0, 0, 0, Some(0), Outbound, "", 16 * MINUTE)]
  {
    hide Run, Apply, ApplyDesk;
    var b := [LATE_REPLY[0]] + [LATE_REPLY[1]];
    var c := b + [LATE_REPLY[2]];
    assert LATE_REPLY == c + [LATE_REPLY[3]];
    OpensTicket();
    Replies(Run(b));
    RunThen(b, LATE_REPLY[2]);
    RunThen(c, LATE_REPLY[3]);
    DeskOfApply(Run(b), LATE_REPLY[2]);
    DeskOfApply(Run(c), LATE_REPLY[3]);
    OnlyDesk(Run(b), LATE_REPLY[2]);
    OnlyDesk(Run(c), LATE_REPLY[3]);
  }

  lemma OnlyDesk(db: Db, s: Step)
    requires s.NewConversation? || s.NewMessage?
    ensures Apply(db, s).slas == db.slas && Apply(db, s).policies == db.policies
  {
    hide DeskEffect;
  }

  lemma OneReply(desk: Desk)
    requires desk.conversations == [Conversation(0, 0, 0, Web)]
    requires desk.messages == [Message(0, 0, 0, Some(0), Outbound, "", 16 * MINUTE)]
    ensures MetAt(desk, 0, 0, FirstResponse) == Some(16 * MINUTE)
  {
    assert desk.conversations[0] in desk.conversations;
    assert 0 in Threads(desk.conversations, 0, 0);
    assert EarliestReply(desk.messages[..0], 0, Threads(desk.conversations, 0, 0)) == None;
  }

  lemma LateReplyIsOrdered()
    ensures UpTo(LATE_REPLY, 17 * MINUTE) && forall k :: 0 <= k < |LATE_REPLY| ==> !LATE_REPLY[k].Tick?
  {
  }

  lemma UrgentDue(db: Db, item: TicketSla)
    requires db.policies == map[] && 0 in db.desk.tickets && db.desk.tickets[0] == Ticket(0, 0, 0, None, New, Urgent, 0)
    requires DueByPolicy(db, 0, item)
    ensures TrackOf(item, FirstResponse).dueAt == 15 * MINUTE
  {
  }

  /** One such run: the response is late, the row says so, and nobody is told. */
  lemma LateReplyIsNotAnnounced()
    ensures var e := Run(LATE_REPLY + [Tick(0, 17 * MINUTE)]);
            && 0 in e.slas && e.slas[0].workspace == 0 && TrackOf(e.slas[0], FirstResponse).breached
            && !HasAlert(e.notifications, 0, 0, FirstResponse, SlaBreached)
  {
    hide Run, Apply, DueByPolicy, HasAlert, UpTo, Looks, MetAt, Erase, TrackOf, LATE_REPLY;
    var tick := Tick(0, 17 * MINUTE);
    var db, e := Run(LATE_REPLY), Run(LATE_REPLY + [tick]);
    LateReplyRun();
    LateReplyIsOrdered();
    OneReply(db.desk);
    OpenedIsLookedAt(db.desk, 17 * MINUTE);
    RunThen(LATE_REPLY, tick);
    LookAttaches(db, tick, 0);
    UrgentDue(db, e.slas[0]);
    TimeOfTick(tick);
    LookRecordsHistory(LATE_REPLY, tick, 0, FirstResponse);
    LateAnswerIsSilent(LATE_REPLY, tick, 0, FirstResponse);
  }

  lemma TimeOfTick(s: Step)
    requires s.Tick?
    ensures Time(s) == s.at
  {
  }
}
