/** The deadlines over whole runs: when a row is attached, what its deadlines are, and what that makes of
    two schedules over one history. */
module SlaDeadlines {
  import opened Wrappers
  import opened TicketEnums
  import opened Store
  import opened SlaClock
  import opened History
  import opened Ledger
  import opened Lifecycle
  import opened SlaHistory
  import Portal

  // ---- the policy in force is history -----------------------------------------------------------

  lemma TickKeepsPolicy(db: Db, s: Step, key: PolicyKey)
    requires IsTick(s)
    ensures PolicyInForce(Apply(db, s), key) == PolicyInForce(db, key)
  {
    hide FreshSla, Alerts, Evaluated, Refreshed;
  }

  lemma OtherStepSetsAlike(db: Db, e: Db, s: Step, key: PolicyKey)
    requires !IsTick(s) && db.desk == e.desk && PolicyInForce(db, key) == PolicyInForce(e, key)
    ensures PolicyInForce(Apply(db, s), key) == PolicyInForce(Apply(e, s), key)
  {
    hide DeskEffect;
  }

  /** Ticks and reads store default policies, but what is in force is decided by the history alone. */
  lemma {:induction false} PolicyIsHistory(steps: seq<Step>, key: PolicyKey)
    ensures PolicyInForce(Run(steps), key) == PolicyInForce(Run(Erase(steps)), key)
  {
    if steps != [] {
      var front, last := steps[..|steps| - 1], steps[|steps| - 1];
      PolicyIsHistory(front, key);
      if IsTick(last) {
        TickKeepsPolicy(Run(front), last, key);
      } else {
        assert Erase(steps)[..|Erase(steps)| - 1] == Erase(front);
        TicksLeaveNoTrace(front);
        OtherStepSetsAlike(Run(front), Run(Erase(front)), last, key);
      }
      hide Apply, PolicyInForce;
    }
  }

  // The policy that the calls of a run give a key: the last one set that was accepted, or else the default.
  function PolicyBy(steps: seq<Step>, key: PolicyKey): Policy {
    if steps == [] then DefaultPolicy(key.priority)
    else
      var front, last := steps[..|steps| - 1], steps[|steps| - 1];
      match last
      case SetPolicy(k, first, resolution, warning, _) =>
        if k == key && warning < first && warning < resolution then Policy(first, resolution, warning, true)
        else PolicyBy(front, key)
      case _ => PolicyBy(front, key)
  }

  lemma OtherStepSets(db: Db, s: Step, key: PolicyKey)
    requires !IsTick(s)
    ensures PolicyInForce(Apply(db, s), key)
            == if s.SetPolicy? && s.key == key && s.warning < s.first && s.warning < s.resolution
               then Policy(s.first, s.resolution, s.warning, true) else PolicyInForce(db, key)
  {
    hide DeskEffect;
  }

  /** The policy in force is the last accepted one that was set for the workspace and priority, or the default. */
  lemma {:induction false} PolicyIsItsCalls(steps: seq<Step>, key: PolicyKey)
    ensures PolicyInForce(Run(steps), key) == PolicyBy(steps, key)
  {
    if steps != [] {
      var front, last := steps[..|steps| - 1], steps[|steps| - 1];
      PolicyIsItsCalls(front, key);
      if IsTick(last) {
        TickKeepsPolicy(Run(front), last, key);
      } else {
        OtherStepSets(Run(front), last, key);
      }
      hide Apply, PolicyInForce;
    }
  }

  // ---- the row is attached at the first look ----------------------------------------------------

  predicate DueByPolicy(db: Db, t: TicketId, item: TicketSla)
    requires t in db.desk.tickets
  {
    var policy, base := PolicyInForce(db, KeyOf(db, t)), db.desk.tickets[t].createdAt;
    && item.workspace == db.desk.tickets[t].workspace
    && item.policy == KeyOf(db, t)
    && item.response.dueAt == base + policy.firstResponseMinutes * MINUTE
    && item.resolution.dueAt == base + policy.resolutionMinutes * MINUTE
  }

  lemma AttachIsDue(db: Db, ts: set<TicketId>, t: TicketId)
    requires ts <= db.desk.tickets.Keys && t in ts
    ensures DueByPolicy(db, t, Attach(db, ts).slas[t])
  {
  }

  lemma TickAttaches(db: Db, ws: WorkspaceId, now: int, t: TicketId)
    requires t !in db.slas
    ensures t in Evaluate(db, ws, now).slas <==> InWorkspace(db.desk, ws, t)
    ensures InWorkspace(db.desk, ws, t) ==> DueByPolicy(db, t, Evaluate(db, ws, now).slas[t])
  {
    var d := Materialize(db, ws);
    if InWorkspace(db.desk, ws, t) {
      AttachIsDue(db, WithoutSla(db, ws), t);
      SweepFreezes(d, Swept(d, ws), now, t);
      DueStays(db, t, d.slas[t], Evaluate(db, ws, now).slas[t]);
    }
  }

  lemma ReadAttaches(db: Db, ws: WorkspaceId, u: TicketId, now: int, t: TicketId)
    requires t !in db.slas
    ensures var e := Apply(db, ReadClock(ws, u, now));
            && (t in e.slas <==> u == t && InWorkspace(db.desk, ws, t))
            && (t in e.slas ==> DueByPolicy(db, t, e.slas[t]))
  {
    if u == t && InWorkspace(db.desk, ws, t) {
      AttachIsDue(db, {t}, t);
    }
    hide FreshSla, WithDefaults, FirstOutboundAt, FirstResolvedAt;
  }

  // A ticket without a row gets one from a look, and from nothing else, with the policy then in force.
  lemma LookAttaches(db: Db, s: Step, t: TicketId)
    requires t !in db.slas
    ensures t in Apply(db, s).slas <==> Looks(db.desk, s, t)
    ensures Looks(db.desk, s, t) ==> DueByPolicy(db, t, Apply(db, s).slas[t])
  {
    hide Apply, Evaluate, DueByPolicy;
    match s {
      case Tick(ws, now) =>
        TickIsApplied(db, ws, now);
        TickAttaches(db, ws, now, t);
      case ReadClock(ws, u, now) =>
        ReadAttaches(db, ws, u, now, t);
      case _ =>
        OtherIsApplied(db, s);
    }
  }

  lemma DueStays(db: Db, t: TicketId, a: TicketSla, b: TicketSla)
    requires t in db.desk.tickets && DueByPolicy(db, t, a) && Frozen(a, b)
    ensures DueByPolicy(db, t, b)
  {
    assert TrackOf(b, FirstResponse).dueAt == TrackOf(a, FirstResponse).dueAt;
    assert TrackOf(b, Resolution).dueAt == TrackOf(a, Resolution).dueAt;
  }

  // Step k of a schedule looks at ticket t, which its history has created by then.
  predicate LooksAt(steps: seq<Step>, k: nat, t: TicketId)
    requires k < |steps|
  {
    Looks(Run(Erase(steps[..k])).desk, steps[k], t)
  }

  predicate FirstLook(steps: seq<Step>, k: nat, t: TicketId) {
    k < |steps| && LooksAt(steps, k, t) && forall i :: 0 <= i < k ==> !LooksAt(steps, i, t)
  }

  lemma LooksAtFront(steps: seq<Step>, i: nat, t: TicketId)
    requires i < |steps| - 1
    ensures LooksAt(steps, i, t) == LooksAt(steps[..|steps| - 1], i, t)
  {
    assert steps[..|steps| - 1][..i] == steps[..i];
  }

  lemma LooksAtLast(steps: seq<Step>, t: TicketId)
    requires steps != []
    ensures LooksAt(steps, |steps| - 1, t) == Looks(Run(steps[..|steps| - 1]).desk, steps[|steps| - 1], t)
  {
    TicksLeaveNoTrace(steps[..|steps| - 1]);
    hide Run, Looks;
  }

  // Some step before the n-th looks.
  predicate Looked(steps: seq<Step>, n: nat, t: TicketId)
    requires n <= |steps|
  {
    exists k | 0 <= k < n :: LooksAt(steps, k, t)
  }

  lemma LookedFront(steps: seq<Step>, t: TicketId)
    requires steps != []
    ensures var n := |steps| - 1;
            Looked(steps, |steps|, t) <==> Looked(steps[..n], n, t) || LooksAt(steps, n, t)
  {
    var n := |steps| - 1;
    forall i | 0 <= i < n
      ensures LooksAt(steps, i, t) == LooksAt(steps[..n], i, t)
    {
      LooksAtFront(steps, i, t);
    }
    hide LooksAt;
  }

  lemma {:induction false} FirstLookExists(steps: seq<Step>, n: nat, t: TicketId)
    requires n <= |steps| && Looked(steps, n, t)
    ensures exists k :: FirstLook(steps, k, t)
    decreases n
  {
    hide LooksAt;
    var k :| 0 <= k < n && LooksAt(steps, k, t);
    if Looked(steps, k, t) {
      FirstLookExists(steps, k, t);
    } else {
      assert FirstLook(steps, k, t);
    }
  }

  lemma {:induction false} RowWhenLooked(steps: seq<Step>, t: TicketId)
    ensures t in Run(steps).slas <==> Looked(steps, |steps|, t)
  {
    if steps != [] {
      var n := |steps| - 1;
      var front, last := steps[..n], steps[n];
      RowWhenLooked(front, t);
      LookedFront(steps, t);
      LooksAtLast(steps, t);
      RunThen(front, last);
      assert front + [last] == steps;
      hide *;
      if t in Run(front).slas {
        StepFreezes(Run(front), last, t);
      } else {
        LookAttaches(Run(front), last, t);
      }
    }
  }

  /** A ticket has a row exactly when the schedule has a first look at it. */
  lemma AttachedIffLooked(steps: seq<Step>, t: TicketId)
    ensures t in Run(steps).slas <==> exists k :: FirstLook(steps, k, t)
  {
    RowWhenLooked(steps, t);
    hide Run, LooksAt;
    if Looked(steps, |steps|, t) {
      FirstLookExists(steps, |steps|, t);
    }
  }

  // ---- frozen deadlines -------------------------------------------------------------------------

  lemma TicketStays(db: Db, s: Step, t: TicketId)
    requires t in db.desk.tickets
    ensures t in Apply(db, s).desk.tickets && KeepsTicket(db.desk.tickets[t], Apply(db, s).desk.tickets[t])
  {
    StepGrows(db.desk, s);
    DeskOfApply(db, s);
  }

  // Before the first look there is no row.
  lemma NotBeforeFirst(steps: seq<Step>, k: nat, t: TicketId)
    requires FirstLook(steps, k, t)
    ensures t !in Run(steps[..k]).slas
  {
    RowWhenLooked(steps[..k], t);
    hide Looks, Run;
    forall i | 0 <= i < k
      ensures !LooksAt(steps[..k], i, t)
    {
      assert steps[..k][..i] == steps[..i];
      assert LooksAt(steps[..k], i, t) == LooksAt(steps, i, t);
    }
  }

  // The first look attaches the row with the deadlines the history then gives.
  lemma DueAtFirstLook(steps: seq<Step>, k: nat, t: TicketId)
    requires FirstLook(steps, k, t)
    ensures k < |steps| && t in Run(Erase(steps[..k])).desk.tickets
    ensures t in Run(steps[..k + 1]).slas && DueByPolicy(Run(Erase(steps[..k])), t, Run(steps[..k + 1]).slas[t])
  {
    hide Run, Apply, Looks, DueByPolicy, PolicyInForce, Erase, KeyOf;
    var front, last := steps[..k], steps[k];
    assert Looks(Run(Erase(front)).desk, last, t);
    NotBeforeFirst(steps, k, t);
    hide FirstLook, LooksAt;
    TicksLeaveNoTrace(front);
    LooksIsOnTicket(Run(front).desk, last, t);
    LookAttaches(Run(front), last, t);
    PolicyIsHistory(front, KeyOf(Run(front), t));
    RunThen(front, last);
    assert front + [last] == steps[..k + 1];
    DueByHistory(Run(front), Run(Erase(front)), t, Run(steps[..k + 1]).slas[t]);
  }

  lemma LooksIsOnTicket(desk: Desk, s: Step, t: TicketId)
    requires Looks(desk, s, t)
    ensures t in desk.tickets
  {
  }

  lemma DueByHistory(db: Db, e: Db, t: TicketId, item: TicketSla)
    requires t in db.desk.tickets && db.desk == e.desk && DueByPolicy(db, t, item)
    requires PolicyInForce(db, KeyOf(db, t)) == PolicyInForce(e, KeyOf(db, t))
    ensures DueByPolicy(e, t, item)
  {
  }

  /** A ticket's deadlines are its creation time plus the minutes of the policy that the history had put
      in force by the first look; no later policy, priority change, tick or read has moved them. */
  lemma DeadlinesAreFrozen(steps: seq<Step>, k: nat, t: TicketId)
    requires FirstLook(steps, k, t)
    ensures t in Run(steps).slas && t in Run(steps).desk.tickets
    ensures var history := Run(Erase(steps[..k]));
            && t in history.desk.tickets
            && KeepsTicket(history.desk.tickets[t], Run(steps).desk.tickets[t])
            && DueByPolicy(history, t, Run(steps).slas[t])
  {
    hide *;
    DueAtFirstLook(steps, k, t);
    TicksLeaveNoTrace(steps[..k]);
    SplitAt(steps, k);
    SplitAt(steps, k + 1);
    TicketStaysAlong(steps[..k], steps[k..], t);
    RunFreezes(steps[..k + 1], steps[k + 1..], t);
    DueStays(Run(Erase(steps[..k])), t, Run(steps[..k + 1]).slas[t], Run(steps).slas[t]);
  }

  lemma SplitAt(steps: seq<Step>, k: nat)
    requires k <= |steps|
    ensures steps[..k] + steps[k..] == steps
  {
  }

  lemma {:induction false} TicketStaysAlong(a: seq<Step>, b: seq<Step>, t: TicketId)
    requires t in Run(a).desk.tickets
    ensures t in Run(a + b).desk.tickets && KeepsTicket(Run(a).desk.tickets[t], Run(a + b).desk.tickets[t])
  {
    hide *;
    if b == [] {
      assert a + b == a;
      KeptAsIs(Run(a).desk.tickets[t]);
    } else {
      var front, last := b[..|b| - 1], b[|b| - 1];
      TicketStaysAlong(a, front, t);
      assert (a + front) + [last] == a + b;
      RunThen(a + front, last);
      TicketStays(Run(a + front), last, t);
      KeptOn(Run(a).desk.tickets[t], Run(a + front).desk.tickets[t], Run(a + b).desk.tickets[t]);
    }
  }

  function Minutes(policy: Policy, o: Objective): int {
    match o
    case FirstResponse => policy.firstResponseMinutes
    case Resolution => policy.resolutionMinutes
  }

  // The minutes that a history, which holds no tick, gives a ticket.
  function MinutesBy(history: seq<Step>, t: TicketId, o: Objective): int
    requires t in Run(history).desk.tickets
  {
    Minutes(PolicyInForce(Run(history), KeyOf(Run(history), t)), o)
  }

  // The ticket's policy key by the calls of a run that opened it.
  function KeyBy(steps: seq<Step>, t: TicketId): PolicyKey
    requires TicketBy(steps, t).Some?
  {
    PolicyKey(TicketBy(steps, t).value.workspace, TicketBy(steps, t).value.priority)
  }

  lemma KeyIsOfDesk(db: Db, e: Db, t: TicketId)
    requires t in db.desk.tickets && e.desk == db.desk
    ensures KeyOf(db, t) == KeyOf(e, t)
  {
  }

  lemma DueIs(db: Db, t: TicketId, item: TicketSla)
    requires t in db.desk.tickets && DueByPolicy(db, t, item)
    ensures forall o :: TrackOf(item, o).dueAt
                        == db.desk.tickets[t].createdAt + Minutes(PolicyInForce(db, KeyOf(db, t)), o) * MINUTE
  {
  }

  lemma KeyIsBy(steps: seq<Step>, t: TicketId)
    requires t in Run(steps).desk.tickets
    ensures TicketBy(steps, t).Some? && KeyOf(Run(steps), t) == KeyBy(steps, t)
  {
    TicketIsItsCalls(steps, t);
  }

  /** A deadline counts from the call that opened the ticket, and adds the minutes that the calls up to the
      first look give it: by the ticket's workspace and priority, and the last policy set for these. */
  lemma DeadlinesCountFromOpening(steps: seq<Step>, k: nat, t: TicketId) returns (j: nat)
    requires FirstLook(steps, k, t)
    ensures t in Run(steps).slas && k < |steps| && TicketBy(steps[..k], t).Some?
    ensures j < k && Opens(steps, j, t)
    ensures forall o ::
              TrackOf(Run(steps).slas[t], o).dueAt
              == Time(steps[j]) + Minutes(PolicyBy(steps[..k], KeyBy(steps[..k], t)), o) * MINUTE
  {
    hide Run, PolicyInForce, PolicyBy, TicketBy, Opened, Erase, KeyOf, Minutes, LooksAt, DueByPolicy;
    hide KeepsTicket;
    DeadlinesAreFrozen(steps, k, t);
    var history, db := Run(Erase(steps[..k])), Run(steps[..k]);
    TicksLeaveNoTrace(steps[..k]);
    DueIs(history, t, Run(steps).slas[t]);
    KeyIsOfDesk(history, db, t);
    PolicyIsHistory(steps[..k], KeyOf(db, t));
    PolicyIsItsCalls(steps[..k], KeyOf(db, t));
    KeyIsBy(steps[..k], t);
    j := EveryTicketWasOpened(steps[..k], t);
    assert steps[..k][..j] == steps[..j] && steps[..k][j] == steps[j];
  }

  /** With no policy set, a response is due within four hours, two hours, one hour or a quarter of an hour of
      the opening, by priority, and a resolution within two days, one day, eight hours or four hours; the warning
      comes one hour, half an hour, a quarter of an hour or five minutes ahead. */
  lemma DefaultsCountFromOpening(steps: seq<Step>, k: nat, t: TicketId) returns (j: nat)
    requires FirstLook(steps, k, t) && forall i :: 0 <= i < k ==> !steps[i].SetPolicy?
    ensures t in Run(steps).slas && k < |steps| && TicketBy(steps[..k], t).Some?
    ensures j < k && Opens(steps, j, t)
    ensures var item, hour := Run(steps).slas[t], 3_600_000_000;
            var first, second := item.response.dueAt - Time(steps[j]), item.resolution.dueAt - Time(steps[j]);
            var warning := PolicyBy(steps[..k], KeyBy(steps[..k], t)).warningMinutes;
            match TicketBy(steps[..k], t).value.priority
            case Low => first == 4 * hour && second == 48 * hour && warning == 60
            case Medium => first == 2 * hour && second == 24 * hour && warning == 30
            case High => first == hour && second == 8 * hour && warning == 15
            case Urgent => 4 * first == hour && second == 4 * hour && warning == 5
  {
    hide Run, TicketBy, Opens, FirstLook, PolicyBy;
    j := DeadlinesCountFromOpening(steps, k, t);
    assert TrackOf(Run(steps).slas[t], FirstResponse) == Run(steps).slas[t].response;
    assert TrackOf(Run(steps).slas[t], Resolution) == Run(steps).slas[t].resolution;
    NoPolicySet(steps[..k], KeyBy(steps[..k], t));
  }

  lemma {:induction false} NoPolicySet(steps: seq<Step>, key: PolicyKey)
    requires forall i :: 0 <= i < |steps| ==> !steps[i].SetPolicy?
    ensures PolicyBy(steps, key) == DefaultPolicy(key.priority)
  {
    if steps != [] {
      NoPolicySet(steps[..|steps| - 1], key);
    }
  }

  /** Two schedules over the same history agree on a deadline exactly when the history up to the first
      look of the one and up to the first look of the other give the objective the same minutes. */
  lemma DeadlinesAgreeIff(a: seq<Step>, i: nat, b: seq<Step>, j: nat, t: TicketId, o: Objective)
    requires Erase(a) == Erase(b) && FirstLook(a, i, t) && FirstLook(b, j, t)
    ensures t in Run(a).slas && t in Run(b).slas
    ensures t in Run(Erase(a[..i])).desk.tickets && t in Run(Erase(b[..j])).desk.tickets
    ensures TrackOf(Run(a).slas[t], o).dueAt == TrackOf(Run(b).slas[t], o).dueAt
            <==> MinutesBy(Erase(a[..i]), t, o) == MinutesBy(Erase(b[..j]), t, o)
  {
    TicksLeaveNoTrace(a);
    TicksLeaveNoTrace(b);
    DeadlinesAreFrozen(a, i, t);
    DeadlinesAreFrozen(b, j, t);
    hide Run, PolicyInForce, FirstLook;
  }

  // The deadline that a history, which holds no tick, gives a ticket.
  function DueBy(history: seq<Step>, t: TicketId, o: Objective): int
    requires t in Run(history).desk.tickets
  {
    Run(history).desk.tickets[t].createdAt + MinutesBy(history, t, o) * MINUTE
  }

  // The instant that decides about a breach has reached a deadline: the time the objective was met, which
  // must be later, or else now.
  predicate Late(met: Option<int>, due: int, now: int) {
    if met.Some? then met.value > due else now >= due
  }

  lemma DueIsBy(steps: seq<Step>, k: nat, t: TicketId, o: Objective)
    requires FirstLook(steps, k, t)
    ensures t in Run(steps).slas && t in Run(Erase(steps[..k])).desk.tickets
    ensures TrackOf(Run(steps).slas[t], o).dueAt == DueBy(Erase(steps[..k]), t, o)
  {
    DeadlinesAreFrozen(steps, k, t);
    hide Run, PolicyInForce, FirstLook;
  }

  /** Two schedules over the same history that end with the same tick store the same time, and the same
      verdict exactly when the deciding instant is late by the deadlines of both first looks or of neither. */
  lemma VerdictsAgreeIff(a: seq<Step>, i: nat, b: seq<Step>, j: nat, ws: WorkspaceId, now: int,
                         t: TicketId, o: Objective)
    requires UpTo(a, now) && UpTo(b, now) && Erase(a) == Erase(b) && InWorkspace(Run(a).desk, ws, t)
    requires var tick := Tick(ws, now); FirstLook(a + [tick], i, t) && FirstLook(b + [tick], j, t)
    ensures var x, y := a + [Tick(ws, now)], b + [Tick(ws, now)];
            && t in Run(x).slas && t in Run(Erase(x[..i])).desk.tickets
            && t in Run(y).slas && t in Run(Erase(y[..j])).desk.tickets
            && var met := MetAt(Run(a).desk, ws, t, o);
               && TrackOf(Run(x).slas[t], o).metAt == TrackOf(Run(y).slas[t], o).metAt == met
               && (TrackOf(Run(x).slas[t], o).breached == TrackOf(Run(y).slas[t], o).breached
                   <==> Late(met, DueBy(Erase(x[..i]), t, o), now) == Late(met, DueBy(Erase(y[..j]), t, o), now))
  {
    hide Run, Erase, FirstLook, MetAt, DueBy, UpTo;
    TicksLeaveNoTrace(a);
    TicksLeaveNoTrace(b);
    TickRefinesReplay(a, ws, now, t, o);
    TickRefinesReplay(b, ws, now, t, o);
    DueIsBy(a + [Tick(ws, now)], i, t, o);
    DueIsBy(b + [Tick(ws, now)], j, t, o);
  }

  // The steps that can change the minutes of a ticket: a policy of its workspace, an edit of its priority.
  predicate Alters(s: Step, ws: WorkspaceId, t: TicketId) {
    (s.SetPolicy? && s.key.workspace == ws) || (s.Edit? && s.ticket == t)
  }

  lemma TicketStepKeepsKey(db: Db, s: Step, t: TicketId)
    requires OnTicket(s)
    requires t in db.desk.tickets && !Alters(s, db.desk.tickets[t].workspace, t)
    ensures var d := ApplyDesk(db.desk, s);
            t in d.tickets && d.tickets[t].workspace == db.desk.tickets[t].workspace
            && d.tickets[t].priority == db.desk.tickets[t].priority
  {
  }

  lemma PortalStepKeepsKey(db: Db, p: Portal.Step, t: TicketId)
    requires t in db.desk.tickets
    ensures var d := Portal.Apply(db.desk, p); t in d.tickets && d.tickets[t] == db.desk.tickets[t]
  {
  }

  lemma StepKeepsKey(db: Db, s: Step, t: TicketId)
    requires t in db.desk.tickets && !Alters(s, db.desk.tickets[t].workspace, t)
    ensures t in Apply(db, s).desk.tickets && KeyOf(Apply(db, s), t) == KeyOf(db, t)
  {
    DeskOfApply(db, s);
    hide Apply;
    if s.InPortal? {
      PortalStepKeepsKey(db, s.step, t);
    } else if OnTicket(s) {
      TicketStepKeepsKey(db, s, t);
      hide ApplyDesk, Alters;
    } else {
      OtherStepBystands(db.desk, s);
      hide ApplyDesk, Alters;
    }
  }

  lemma StepKeepsPolicy(db: Db, s: Step, key: PolicyKey)
    requires !(s.SetPolicy? && s.key == key)
    ensures PolicyInForce(Apply(db, s), key) == PolicyInForce(db, key)
  {
    if IsTick(s) {
      TickKeepsPolicy(db, s, key);
      hide Apply;
    } else {
      hide DeskEffect;
    }
  }

  lemma {:induction false} MinutesStay(a: seq<Step>, b: seq<Step>, t: TicketId, o: Objective)
    requires t in Run(a).desk.tickets
    requires forall i :: 0 <= i < |b| ==> !Alters(b[i], Run(a).desk.tickets[t].workspace, t)
    ensures t in Run(a + b).desk.tickets && KeyOf(Run(a + b), t) == KeyOf(Run(a), t)
    ensures MinutesBy(a + b, t, o) == MinutesBy(a, t, o)
  {
    hide Run, Apply, PolicyInForce;
    if b == [] {
      assert a + b == a;
    } else {
      var front, last := b[..|b| - 1], b[|b| - 1];
      MinutesStay(a, front, t, o);
      assert (a + front) + [last] == a + b;
      RunThen(a + front, last);
      StepKeepsKey(Run(a + front), last, t);
      StepKeepsPolicy(Run(a + front), last, KeyOf(Run(a), t));
    }
  }

  lemma {:induction false} ErasePrefix(steps: seq<Step>, k: nat)
    requires k <= |steps|
    ensures Erase(steps[..k]) <= Erase(steps)
  {
    if k == |steps| {
      assert steps[..k] == steps;
    } else {
      ErasePrefix(steps[..|steps| - 1], k);
      assert steps[..|steps| - 1][..k] == steps[..k];
    }
  }

  /** In particular a missed look loses nothing as long as no policy of the workspace and no priority of the
      ticket changes between the earlier first look and the later one. */
  lemma DeadlinesAgreeUnlessAltered(a: seq<Step>, i: nat, b: seq<Step>, j: nat, t: TicketId, o: Objective)
    requires Erase(a) == Erase(b) && FirstLook(a, i, t) && FirstLook(b, j, t)
    requires t in Run(Erase(a[..i])).desk.tickets
    requires |Erase(a[..i])| <= |Erase(b[..j])|
    requires forall k :: |Erase(a[..i])| <= k < |Erase(b[..j])| ==>
               !Alters(Erase(b[..j])[k], Run(Erase(a[..i])).desk.tickets[t].workspace, t)
    ensures t in Run(a).slas && t in Run(b).slas
    ensures TrackOf(Run(a).slas[t], o).dueAt == TrackOf(Run(b).slas[t], o).dueAt
  {
    hide Run, Erase, LooksAt, Alters, MinutesBy;
    ErasePrefix(a, i);
    ErasePrefix(b, j);
    var x, y := Erase(a[..i]), Erase(b[..j]);
    assert x + y[|x|..] == y;
    MinutesStay(x, y[|x|..], t, o);
    DeadlinesAgreeIff(a, i, b, j, t, o);
  }

  // ---- a missed tick can matter -----------------------------------------------------------------

  const OPENING: seq<Step> := [AddClient(0, 0, 0), NewTicket(0, 0, 0, 0, Medium, 0)]
  const TIGHTEN: Step := SetPolicy(PolicyKey(0, Medium), 60, 480, 15, 0)

  lemma OpenedTicket()
    ensures var db := Run(OPENING);
            && db.policies == map[] && db.slas == map[] && db.desk.messages == []
            && 0 in db.desk.tickets && db.desk.tickets[0] == Ticket(0, 0, 0, None, New, Medium, 0)
  {
    assert OPENING == ([] + [OPENING[0]]) + [OPENING[1]];
    RunThen([], OPENING[0]);
    RunThen([OPENING[0]], OPENING[1]);
  }

  // Neither a tick nor the policy change sends a message or moves the ticket.
  lemma QuietStep(db: Db, s: Step)
    requires s == TIGHTEN || s.Tick?
    ensures var d := Apply(db, s).desk; d.messages == db.desk.messages && d.tickets == db.desk.tickets
  {
    DeskOfApply(db, s);
  }

  lemma DefaultDue(db: Db, item: TicketSla)
    requires db.policies == map[] && 0 in db.desk.tickets && db.desk.tickets[0] == Ticket(0, 0, 0, None, New, Medium, 0)
    requires DueByPolicy(db, 0, item)
    ensures TrackOf(item, FirstResponse).dueAt == 120 * MINUTE
  {
  }

  lemma FrozenDue(a: TicketSla, b: TicketSla, o: Objective)
    requires Frozen(a, b)
    ensures TrackOf(b, o).dueAt == TrackOf(a, o).dueAt
  {
  }

  lemma OpenedIsLookedAt(desk: Desk, now: int)
    requires 0 in desk.tickets && desk.tickets[0].workspace == 0
    ensures Looks(desk, Tick(0, now), 0)
  {
  }

  // The row attached before the policy change keeps the default deadline through it.
  lemma KeptDeadline(now: int)
    requires 0 <= now
    ensures var e := Run(OPENING + [Tick(0, 0)] + [TIGHTEN] + [Tick(0, now)]);
            0 in e.slas && e.slas[0].response.dueAt == 120 * MINUTE && e.desk.messages == []
  {
    var tick0, tick1 := Tick(0, 0), Tick(0, now);
    var a, b, c := OPENING + [tick0], OPENING + [tick0] + [TIGHTEN], OPENING + [tick0] + [TIGHTEN] + [tick1];
    OpenedTicket();
    RunThen(OPENING, tick0);
    RunThen(a, TIGHTEN);
    RunThen(b, tick1);
    assert a + [TIGHTEN, tick1] == c;
    hide Run, Apply, DueByPolicy, Frozen, Looks;
    QuietStep(Run(OPENING), tick0);
    QuietStep(Run(a), TIGHTEN);
    QuietStep(Run(b), tick1);
    OpenedIsLookedAt(Run(OPENING).desk, 0);
    LookAttaches(Run(OPENING), tick0, 0);
    DefaultDue(Run(OPENING), Run(a).slas[0]);
    RunFreezes(a, [TIGHTEN, tick1], 0);
    FrozenDue(Run(a).slas[0], Run(c).slas[0], FirstResponse);
  }

  // The row attached after it gets the new one.
  lemma MissedDeadline(now: int)
    requires 0 <= now
    ensures var e := Run(OPENING + [TIGHTEN] + [Tick(0, now)]);
            0 in e.slas && e.slas[0].response.dueAt == 60 * MINUTE && e.desk.messages == []
  {
    var tick1 := Tick(0, now);
    assert UpTo(OPENING + [TIGHTEN], now);
    OpenedTicket();
    RunThen(OPENING, TIGHTEN);
    RunThen(OPENING + [TIGHTEN], tick1);
    var db := Run(OPENING + [TIGHTEN]);
    Tightened(Run(OPENING));
    QuietStep(Run(OPENING), TIGHTEN);
    QuietStep(db, tick1);
    hide Apply, Run, UpTo, MetAt, OPENING, TIGHTEN;
    TickRefinesReplay(OPENING + [TIGHTEN], 0, now, 0, FirstResponse);
    LookAttaches(db, tick1, 0);
  }

  lemma Tightened(db: Db)
    ensures var e := Apply(db, TIGHTEN);
            e.slas == db.slas && e.policies == db.policies[PolicyKey(0, Medium) := Policy(60, 480, 15, true)]
  {
  }

  /** Deadlines, unlike times, are not the history's alone: they depend on when the row is attached, and
      verdicts depend on them. Over one and the same history, a schedule that missed the tick before a policy
      change reports a breach at the first deadline of the new policy, and one that did not miss it none. */
  lemma MissedTickMatters()
    ensures var now := 60 * MINUTE;
            var kept, missed := OPENING + [Tick(0, 0)] + [TIGHTEN], OPENING + [TIGHTEN];
            && Erase(kept) == Erase(missed) && UpTo(kept, now) && UpTo(missed, now)
            && var x, y := Run(kept + [Tick(0, now)]), Run(missed + [Tick(0, now)]);
               0 in x.slas && 0 in y.slas && !x.slas[0].response.breached && y.slas[0].response.breached
  {
    var now := 60 * MINUTE;
    var kept, missed := OPENING + [Tick(0, 0)] + [TIGHTEN], OPENING + [TIGHTEN];
    SameErasure();
    assert UpTo(kept, now) && UpTo(missed, now);
    hide Run, Erase, MetAt, UpTo, Apply;
    KeptDeadline(now);
    MissedDeadline(now);
    StillThere(kept, now);
    StillThere(missed, now);
    TickRefinesReplay(kept, 0, now, 0, FirstResponse);
    TickRefinesReplay(missed, 0, now, 0, FirstResponse);
    SilentDesk(Run(kept + [Tick(0, now)]).desk, 0, 0);
    SilentDesk(Run(missed + [Tick(0, now)]).desk, 0, 0);
  }

  lemma SilentDesk(desk: Desk, ws: WorkspaceId, t: TicketId)
    requires desk.messages == []
    ensures MetAt(desk, ws, t, FirstResponse) == None
  {
  }

  lemma StillThere(steps: seq<Step>, now: int)
    requires steps == OPENING + [TIGHTEN] || steps == OPENING + [Tick(0, 0)] + [TIGHTEN]
    ensures InWorkspace(Run(steps).desk, 0, 0)
  {
    OpenedTicket();
    TicketStays(Run(OPENING), TIGHTEN, 0);
    RunThen(OPENING, TIGHTEN);
    TicketStays(Run(OPENING), Tick(0, 0), 0);
    RunThen(OPENING, Tick(0, 0));
    TicketStays(Run(OPENING + [Tick(0, 0)]), TIGHTEN, 0);
    RunThen(OPENING + [Tick(0, 0)], TIGHTEN);
  }

  lemma SameErasure()
    ensures Erase(OPENING + [Tick(0, 0)] + [TIGHTEN]) == Erase(OPENING + [TIGHTEN])
  {
    var a, b := OPENING + [Tick(0, 0)] + [TIGHTEN], OPENING + [TIGHTEN];
    assert a[..|a| - 1] == OPENING + [Tick(0, 0)] && b[..|b| - 1] == OPENING;
    assert (OPENING + [Tick(0, 0)])[..|OPENING|] == OPENING;
  }
}
