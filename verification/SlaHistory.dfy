/** The SLA clock over whole runs: what the stored rows say is what the history says, whatever the
    schedule of ticks and reads that computed them. */
module SlaHistory {
  import opened Wrappers
  import opened TicketEnums
  import opened Store
  import opened SlaClock
  import opened History
  import opened Lifecycle

  // When the history meets objective o of ticket t.
  function MetAt(desk: Desk, ws: WorkspaceId, t: TicketId, o: Objective): Option<int> {
    match o
    case FirstResponse => FirstOutboundAt(desk, ws, t)
    case Resolution => FirstResolvedAt(desk, ws, t)
  }

  // ---- history is stable ------------------------------------------------------------------------

  lemma {:induction false} EarliestReplyIsSent(messages: seq<Message>, ws: WorkspaceId, threads: set<ConversationId>)
    ensures var r := EarliestReply(messages, ws, threads);
            && (r.Some? <==> exists m :: m in messages && IsReply(m, ws, threads))
            && (r.Some? ==> (exists m :: m in messages && IsReply(m, ws, threads) && m.at == r.value)
                            && forall m :: m in messages && IsReply(m, ws, threads) ==> r.value <= m.at)
  {
    if messages != [] {
      var front, last := messages[..|messages| - 1], messages[|messages| - 1];
      EarliestReplyIsSent(front, ws, threads);
      assert forall m :: m in messages <==> m in front || m == last;
    }
  }

  lemma {:induction false} ForeignThreadIsSilent(messages: seq<Message>, ws: WorkspaceId,
                                                 threads: set<ConversationId>, extra: ConversationId)
    requires forall m :: m in messages ==> m.conversation != extra
    ensures EarliestReply(messages, ws, threads + {extra}) == EarliestReply(messages, ws, threads)
  {
    if messages != [] {
      assert messages[|messages| - 1] in messages;
      ForeignThreadIsSilent(messages[..|messages| - 1], ws, threads, extra);
    }
  }

  // A reply, once there, stays the earliest; an earlier absence is only filled in from now on.
  lemma OutboundIsStable(desk: Desk, d: Desk, before: int, now: int, ws: WorkspaceId, t: TicketId)
    requires Wired(desk) && Dated(desk, before) && before <= now && Grows(desk, d, now)
    ensures FirstOutboundAt(desk, ws, t).Some? ==> FirstOutboundAt(d, ws, t) == FirstOutboundAt(desk, ws, t)
  {
    var threads, threads' := Threads(desk.conversations, ws, t), Threads(d.conversations, ws, t);
    if d.conversations != desk.conversations {
      var c := d.conversations[|desk.conversations|];
      assert d.conversations == desk.conversations + [c];
      ForeignThreadIsSilent(desk.messages, ws, threads, c.id);
      assert threads' == threads || threads' == threads + {c.id};
    }
    EarliestReplyIsSent(desk.messages, ws, threads);
  }

  lemma {:induction false} ResolutionAppends(events: seq<AuditEvent>, e: AuditEvent)
    ensures FirstResolution(events + [e])
            == if FirstResolution(events).Some? then FirstResolution(events)
               else if Resolves(e) then Some(e.at) else None
  {
    if events != [] {
      assert (events + [e])[1..] == events[1..] + [e];
      ResolutionAppends(events[1..], e);
    }
  }

  lemma ResolutionIsStable(desk: Desk, d: Desk, now: int, ws: WorkspaceId, t: TicketId)
    requires Grows(desk, d, now)
    ensures FirstResolvedAt(desk, ws, t).Some? ==> FirstResolvedAt(d, ws, t) == FirstResolvedAt(desk, ws, t)
  {
    EventsAppend(desk.audit, d.audit, ws, t);
    if d.audit != desk.audit {
      ResolutionAppends(StatusEvents(desk.audit, ws, t), d.audit[|desk.audit|]);
    }
  }

  // ---- the verdict ------------------------------------------------------------------------------

  // A recorded time is the history's, judged strictly; a breach noted while the objective was open
  // means the deadline has been reached.
  predicate Judged(track: Track, history: Option<int>, now: int) {
    if track.metAt.Some?
    then track.metAt == history && (track.breached <==> track.metAt.value > track.dueAt)
    else track.breached ==> track.dueAt <= now
  }

  // The policies and tickets the SLA rows refer to are there, and every clock is judged.
  predicate Clocked(db: Db, now: int) {
    forall t :: t in db.slas ==>
      && InWorkspace(db.desk, db.slas[t].workspace, t)
      && db.slas[t].policy in db.policies
      && db.slas[t].policy.workspace == db.slas[t].workspace
      && forall o :: Judged(TrackOf(db.slas[t], o), MetAt(db.desk, db.slas[t].workspace, t, o), now)
  }

  lemma JudgedLater(desk: Desk, d: Desk, before: int, now: int, ws: WorkspaceId, t: TicketId, o: Objective,
                    track: Track)
    requires Wired(desk) && Dated(desk, before) && before <= now && Grows(desk, d, now)
    requires Judged(track, MetAt(desk, ws, t, o), before)
    ensures Judged(track, MetAt(d, ws, t, o), now)
  {
    OutboundIsStable(desk, d, before, now, ws, t);
    ResolutionIsStable(desk, d, now, ws, t);
  }

  // Growing the desk, time passing and rewriting policies all leave the clocks judged.
  lemma DeskStepKeepsClocked(db: Db, e: Db, before: int, now: int)
    requires Wired(db.desk) && Dated(db.desk, before) && before <= now && Grows(db.desk, e.desk, now)
    requires Clocked(db, before)
    requires e.slas == db.slas && db.policies.Keys <= e.policies.Keys
    ensures Clocked(e, now)
  {
    forall t, o | t in e.slas
      ensures Judged(TrackOf(e.slas[t], o), MetAt(e.desk, e.slas[t].workspace, t, o), now)
    {
      JudgedLater(db.desk, e.desk, before, now, db.slas[t].workspace, t, o, TrackOf(db.slas[t], o));
    }
  }

  lemma AttachKeepsClocked(db: Db, ts: set<TicketId>, now: int)
    requires Clocked(db, now) && ts <= db.desk.tickets.Keys
    ensures Clocked(Attach(db, ts), now)
  {
    var d := Attach(db, ts);
    forall t | t in d.slas
      ensures d.slas[t].policy in d.policies
    {
      if t in ts {
        assert KeyOf(db, t) in KeysOf(db, ts);
      }
    }
  }

  // Refreshing takes an open objective's time from the history; sweeping only notes due deadlines.
  lemma RefreshJudges(track: Track, history: Option<int>, now: int)
    requires Judged(track, history, now)
    ensures Judged(RecordMet(track, history), history, now)
    ensures RecordMet(track, history).metAt == history
    ensures RecordMet(track, history).dueAt == track.dueAt
  {
  }

  lemma SweepJudges(track: Track, history: Option<int>, now: int, warning: int)
    requires Judged(track, history, now) && track.metAt == history
    ensures var swept := Mark(track, Due(track, now, warning));
            && Judged(swept, history, now) && swept.metAt == history && swept.dueAt == track.dueAt
            && (swept.breached <==> if history.Some? then history.value > track.dueAt else now >= track.dueAt)
  {
  }

  // What the sweep leaves in the row of a ticket: the history's times and the verdict at now.
  predicate Settled(desk: Desk, t: TicketId, item: TicketSla, now: int) {
    forall o ::
      var track, history := TrackOf(item, o), MetAt(desk, item.workspace, t, o);
      && track.metAt == history
      && (track.breached <==> if history.Some? then history.value > track.dueAt else now >= track.dueAt)
  }

  lemma TurnSettles(db: Db, t: TicketId, now: int)
    requires Clocked(db, now) && t in db.slas
    ensures var item := Evaluated(db, t, now);
            && Settled(db.desk, t, item, now)
            && item.workspace == db.slas[t].workspace && item.policy == db.slas[t].policy
            && forall o :: TrackOf(item, o).dueAt == TrackOf(db.slas[t], o).dueAt
  {
    var ws := db.slas[t].workspace;
    var warning := db.policies[db.slas[t].policy].warningMinutes * MINUTE;
    forall o
      ensures var track, history := TrackOf(Evaluated(db, t, now), o), MetAt(db.desk, ws, t, o);
              && track.metAt == history && track.dueAt == TrackOf(db.slas[t], o).dueAt
              && (track.breached <==> if history.Some? then history.value > track.dueAt else now >= track.dueAt)
    {
      var history := MetAt(db.desk, ws, t, o);
      RefreshJudges(TrackOf(db.slas[t], o), history, now);
      SweepJudges(RecordMet(TrackOf(db.slas[t], o), history), history, now, warning);
    }
  }

  lemma InactiveIsSettled(db: Db, t: TicketId, now: int)
    requires Clocked(db, now) && t in db.slas && !Active(db.slas[t])
    ensures Settled(db.desk, t, db.slas[t], now)
  {
    forall o
      ensures Judged(TrackOf(db.slas[t], o), MetAt(db.desk, db.slas[t].workspace, t, o), now)
      ensures TrackOf(db.slas[t], o).metAt.Some?
    {
    }
  }

  lemma SettledIsJudged(desk: Desk, t: TicketId, item: TicketSla, now: int, o: Objective)
    requires Settled(desk, t, item, now)
    ensures Judged(TrackOf(item, o), MetAt(desk, item.workspace, t, o), now)
  {
    var track := TrackOf(item, o);
    assert track.metAt == MetAt(desk, item.workspace, t, o);
  }

  // The sweep of a workspace settles every ticket of the workspace, and leaves every clock judged.
  lemma EvaluateSettles(db: Db, ws: WorkspaceId, now: int)
    requires Clocked(db, now)
    ensures var e := Evaluate(db, ws, now);
            && e.desk == db.desk
            && Clocked(e, now)
            && forall t :: t in db.desk.tickets && db.desk.tickets[t].workspace == ws ==>
                 t in e.slas && e.slas[t].workspace == ws && Settled(db.desk, t, e.slas[t], now)
  {
    var d, e := Materialize(db, ws), Evaluate(db, ws, now);
    AttachKeepsClocked(db, WithoutSla(db, ws), now);
    forall t | t in d.slas
      ensures t in e.slas && e.slas[t].workspace == d.slas[t].workspace && e.slas[t].policy == d.slas[t].policy
      ensures forall o :: Judged(TrackOf(e.slas[t], o), MetAt(db.desk, d.slas[t].workspace, t, o), now)
      ensures d.slas[t].workspace == ws ==> Settled(db.desk, t, e.slas[t], now)
    {
      if t in Swept(d, ws) {
        TurnSettles(d, t, now);
        forall o
          ensures Judged(TrackOf(e.slas[t], o), MetAt(db.desk, d.slas[t].workspace, t, o), now)
        {
          SettledIsJudged(db.desk, t, e.slas[t], now, o);
        }
      } else if !Active(d.slas[t]) {
        InactiveIsSettled(d, t, now);
      }
    }
  }

  lemma ReadKeepsClocked(db: Db, ws: WorkspaceId, t: TicketId, now: int)
    requires Clocked(db, now) && ReadSla(db, ws, t).Success?
    ensures var e := ReadSla(db, ws, t).value;
            e.desk == db.desk && Clocked(e, now) && t in e.slas && e.slas[t].workspace == ws
            && forall o :: TrackOf(e.slas[t], o).metAt == MetAt(db.desk, ws, t, o)
  {
    var d, e := if t in db.slas then db else Attach(db, {t}), ReadSla(db, ws, t).value;
    if t !in db.slas {
      AttachKeepsClocked(db, {t}, now);
    }
    forall o
      ensures Judged(TrackOf(e.slas[t], o), MetAt(db.desk, ws, t, o), now)
              && TrackOf(e.slas[t], o).metAt == MetAt(db.desk, ws, t, o)
    {
      RefreshJudges(TrackOf(d.slas[t], o), MetAt(db.desk, ws, t, o), now);
    }
  }

  lemma ClockedLater(db: Db, before: int, now: int)
    requires Clocked(db, before) && before <= now
    ensures Clocked(db, now)
  {
  }

  lemma StepKeepsClocked(db: Db, s: Step, before: int)
    requires Wired(db.desk) && Dated(db.desk, before) && before <= Time(s) && Clocked(db, before)
    ensures Clocked(Apply(db, s), Time(s))
  {
    hide Evaluate, ReadSla, Clocked, Grows, Wired, Dated, ApplyDesk, Apply, DeskEffect;
    ClockedLater(db, before, Time(s));
    match s {
      case Tick(ws, now) =>
        TickIsApplied(db, ws, now);
        EvaluateSettles(db, ws, now);
      case ReadClock(ws, t, now) =>
        ReadIsApplied(db, ws, t, now);
        if ReadSla(db, ws, t).Success? {
          ReadKeepsClocked(db, ws, t, now);
        }
      case _ =>
        OtherIsApplied(db, s);
        StepGrows(db.desk, s);
        DeskOfApply(db, s);
        DeskStepKeepsClocked(db, Apply(db, s), before, Time(s));
    }
  }

  lemma {:induction false} ReachableIsClocked(steps: seq<Step>, now: int)
    requires UpTo(steps, now)
    ensures Healthy(Run(steps).desk, now) && Clocked(Run(steps), now)
  {
    ReachableIsHealthy(steps, now);
    if steps != [] {
      var front, last := steps[..|steps| - 1], steps[|steps| - 1];
      ReachableIsClocked(front, Time(last));
      StepKeepsClocked(Run(front), last, Time(last));
      ReachableIsHealthy(steps, Time(last));
      ClockedLater(Run(steps), Time(last), now);
    }
  }

  // ---- replay refinement ------------------------------------------------------------------------

  // The pure replay: when an objective was met and whether it is breached, from the history alone.
  function Verdict(history: Option<int>, dueAt: int, now: int): (Option<int>, bool) {
    (history, if history.Some? then history.value > dueAt else now >= dueAt)
  }

  function Stored(track: Track): (Option<int>, bool) {
    (track.metAt, track.breached)
  }

  lemma RunThen(steps: seq<Step>, s: Step)
    ensures Run(steps + [s]) == Apply(Run(steps), s)
  {
    assert (steps + [s])[..|steps + [s]| - 1] == steps;
  }

  lemma RunThenTick(steps: seq<Step>, ws: WorkspaceId, now: int)
    ensures Run(steps + [Tick(ws, now)]) == Evaluate(Run(steps), ws, now)
  {
    hide Evaluate;
    var all := steps + [Tick(ws, now)];
    assert all[..|all| - 1] == steps;
  }

  /** However a run got there, right after a tick every ticket of the workspace has an SLA row whose
      recorded times and breach flags are those the replay derives from the message and audit history,
      the stored deadlines and the instant of the tick. */
  lemma TickRefinesReplay(steps: seq<Step>, ws: WorkspaceId, now: int, t: TicketId, o: Objective)
    requires UpTo(steps, now)
    requires InWorkspace(Run(steps).desk, ws, t)
    ensures var e := Run(steps + [Tick(ws, now)]);
            && e.desk == Run(steps).desk
            && t in e.slas && e.slas[t].workspace == ws
            && Stored(TrackOf(e.slas[t], o)) == Verdict(MetAt(e.desk, ws, t, o), TrackOf(e.slas[t], o).dueAt, now)
  {
    hide Evaluate, Healthy, Clocked, MetAt;
    RunThenTick(steps, ws, now);
    ReachableIsClocked(steps, now);
    EvaluateSettles(Run(steps), ws, now);
  }

  /** Two schedules of ticks and reads over the same history that end with the same tick agree on every
      objective whose stored deadline they agree on. */
  lemma TickScheduleIsIrrelevant(a: seq<Step>, b: seq<Step>, ws: WorkspaceId, now: int, t: TicketId, o: Objective)
    requires UpTo(a, now) && UpTo(b, now) && Erase(a) == Erase(b)
    requires InWorkspace(Run(a).desk, ws, t)
    ensures var x, y := Run(a + [Tick(ws, now)]), Run(b + [Tick(ws, now)]);
            && x.desk == y.desk && t in x.slas && t in y.slas
            && (TrackOf(x.slas[t], o).dueAt == TrackOf(y.slas[t], o).dueAt
                ==> Stored(TrackOf(x.slas[t], o)) == Stored(TrackOf(y.slas[t], o)))
  {
    hide Evaluate, MetAt, Run;
    TicksLeaveNoTrace(a);
    TicksLeaveNoTrace(b);
    TickRefinesReplay(a, ws, now, t, o);
    TickRefinesReplay(b, ws, now, t, o);
  }

  // The calls that bring a ticket's row up to date: a sweep of its workspace, or a read of its clocks.
  predicate Looks(desk: Desk, s: Step, t: TicketId) {
    t in desk.tickets
    && match s
       case Tick(ws, _) => desk.tickets[t].workspace == ws
       case ReadClock(ws, u, _) => u == t && desk.tickets[t].workspace == ws
       case _ => false
  }

  /** Right after such a call, a read as much as a tick, the recorded times are the history's, and a time
      that is recorded is judged strictly. */
  lemma LookRecordsHistory(steps: seq<Step>, s: Step, t: TicketId, o: Objective)
    requires UpTo(steps, Time(s)) && Looks(Run(steps).desk, s, t)
    ensures var e := Run(steps + [s]);
            && e.desk == Run(steps).desk && t in e.slas && e.slas[t].workspace == e.desk.tickets[t].workspace
            && var track := TrackOf(e.slas[t], o);
               && track.metAt == MetAt(e.desk, e.slas[t].workspace, t, o)
               && (track.metAt.Some? ==> (track.breached <==> track.metAt.value > track.dueAt))
  {
    RunThen(steps, s);
    DeskOfApply(Run(steps), s);
    ReachableIsClocked(steps, Time(s));
    match s {
      case Tick(ws, now) =>
        hide Run, MetAt;
        TickRefinesReplay(steps, ws, now, t, o);
      case ReadClock(ws, u, now) =>
        hide MetAt, Run, Apply;
        assert ReadSla(Run(steps), ws, t).Success?;
        ReadIsApplied(Run(steps), ws, t, now);
        ReadKeepsClocked(Run(steps), ws, t, now);
    }
  }

  /** In every reachable state a read of a ticket's clocks is refused exactly when the workspace has no such
      ticket, and then because it is not found. */
  lemma ReadRefusedIff(steps: seq<Step>, now: int, ws: WorkspaceId, t: TicketId)
    requires UpTo(steps, now)
    ensures var r := Effect(Run(steps), ReadClock(ws, t, now));
            if InWorkspace(Run(steps).desk, ws, t) then r.Success? else r == Failure(NotFound)
  {
    ReachableIsClocked(steps, now);
    hide Run, Healthy, Refreshed, Attach, MetAt, Judged;
  }

  // ---- nothing recorded is lost -----------------------------------------------------------------

  // What no step ever changes in a row: whose it is, its policy, its deadlines, a recorded time and
  // the verdict on it, and the fact that a warning was sent.
  predicate Frozen(a: TicketSla, b: TicketSla) {
    && b.workspace == a.workspace && b.policy == a.policy
    && forall o ::
         var x, y := TrackOf(a, o), TrackOf(b, o);
         && y.dueAt == x.dueAt
         && (x.metAt.Some? ==> y == x)
         && (x.warningSent ==> y.warningSent)
         && (x.breached ==> y.breached || y.metAt.Some?)
  }

  lemma MaterializeFreezes(db: Db, ws: WorkspaceId, t: TicketId)
    requires t in db.slas
    ensures t in Materialize(db, ws).slas && Materialize(db, ws).slas[t] == db.slas[t]
  {
  }

  lemma SweepFreezes(d: Db, ts: set<TicketId>, now: int, t: TicketId)
    requires ts <= d.slas.Keys && ts <= d.desk.tickets.Keys && t in d.slas
    ensures t in SweepAll(d, ts, now).slas && Frozen(d.slas[t], SweepAll(d, ts, now).slas[t])
  {
    hide FirstOutboundAt, FirstResolvedAt;
  }

  lemma ReadFreezes(db: Db, ws: WorkspaceId, u: TicketId, t: TicketId)
    requires t in db.slas && ReadSla(db, ws, u).Success?
    ensures var e := ReadSla(db, ws, u).value; t in e.slas && Frozen(db.slas[t], e.slas[t])
  {
    hide WithDefaults, FreshSla, FirstOutboundAt, FirstResolvedAt;
  }

  lemma StepFreezes(db: Db, s: Step, t: TicketId)
    requires t in db.slas
    ensures t in Apply(db, s).slas && Frozen(db.slas[t], Apply(db, s).slas[t])
  {
    hide Apply, Frozen, ReadSla, SweepAll, Materialize;
    match s {
      case Tick(ws, now) =>
        TickIsApplied(db, ws, now);
        MaterializeFreezes(db, ws, t);
        SweepFreezes(Materialize(db, ws), Swept(Materialize(db, ws), ws), now, t);
      case ReadClock(ws, u, now) =>
        ReadIsApplied(db, ws, u, now);
        FrozenSelf(db.slas[t]);
        if ReadSla(db, ws, u).Success? {
          ReadFreezes(db, ws, u, t);
        }
      case _ =>
        OtherIsApplied(db, s);
        FrozenSelf(db.slas[t]);
    }
  }

  lemma {:induction false} RunFreezes(a: seq<Step>, b: seq<Step>, t: TicketId)
    requires t in Run(a).slas
    ensures t in Run(a + b).slas && Frozen(Run(a).slas[t], Run(a + b).slas[t])
  {
    hide *;
    if b == [] {
      assert a + b == a;
      FrozenSelf(Run(a).slas[t]);
    } else {
      var front, last := b[..|b| - 1], b[|b| - 1];
      RunFreezes(a, front, t);
      assert a + b == (a + front) + [last];
      RunThen(a + front, last);
      StepFreezes(Run(a + front), last, t);
      FrozenChain(Run(a).slas[t], Run(a + front).slas[t], Run(a + b).slas[t]);
    }
  }

  lemma FrozenSelf(a: TicketSla)
    ensures Frozen(a, a)
  {
  }

  lemma FrozenChain(a: TicketSla, b: TicketSla, c: TicketSla)
    requires Frozen(a, b) && Frozen(b, c)
    ensures Frozen(a, c)
  {
    forall o
      ensures TrackOf(c, o).dueAt == TrackOf(a, o).dueAt
      ensures TrackOf(a, o).metAt.Some? ==> TrackOf(c, o) == TrackOf(a, o)
      ensures TrackOf(a, o).breached ==> TrackOf(c, o).breached || TrackOf(c, o).metAt.Some?
    {
      assert TrackOf(b, o).dueAt == TrackOf(a, o).dueAt;
    }
  }

  /** A recorded response or resolution time is never changed again, not even by reopening the ticket,
      and in every reachable state it is the history's and the breach flag says exactly that it is
      strictly later than the deadline. */
  lemma VerdictIsFinal(a: seq<Step>, b: seq<Step>, now: int, t: TicketId, o: Objective)
    requires UpTo(a + b, now) && t in Run(a).slas
    requires TrackOf(Run(a).slas[t], o).metAt.Some?
    ensures t in Run(a + b).slas
    ensures var x, y := TrackOf(Run(a).slas[t], o), TrackOf(Run(a + b).slas[t], o);
            && y == x
            && x.metAt == MetAt(Run(a + b).desk, Run(a + b).slas[t].workspace, t, o)
            && (x.breached <==> x.metAt.value > x.dueAt)
  {
    RunFreezes(a, b, t);
    ReachableIsClocked(a + b, now);
    hide Run, MetAt;
  }

  // ---- resolution and the lifecycle path --------------------------------------------------------

  predicate Visits(moves: seq<TicketEnums.Move>) {
    exists m :: m in moves && Terminal(m.to)
  }

  lemma {:induction false} ResolvesIffVisits(events: seq<AuditEvent>)
    requires forall e :: e in events ==> e.metadata.Fields? && e.metadata.from.Some? && e.metadata.to.Some?
    ensures FirstResolution(events).Some? <==> Visits(Moves(events))
  {
    if events != [] {
      var n := |events| - 1;
      var front, last := events[..n], events[n];
      ResolvesIffVisits(front);
      ResolutionAppends(front, last);
      assert front + [last] == events && last in events;
      var move := TicketEnums.Move(last.metadata.from.value, last.metadata.to.value);
      assert Moves(events) == Moves(front) + [move];
      assert Terminal(move.to) <==> Resolves(last);
      assert forall m :: m in Moves(events) <==> m in Moves(front) || m == move;
    }
  }

  lemma {:induction false} StatusEventsAreEvents(audit: seq<AuditEvent>, ws: WorkspaceId, t: TicketId)
    ensures forall e :: e in StatusEvents(audit, ws, t) ==> e in audit && IsStatusEvent(e, ws, t)
  {
    if audit != [] {
      StatusEventsAreEvents(audit[..|audit| - 1], ws, t);
    }
  }

  /** After a tick or a read, a resolution time is recorded exactly when the path the ticket has taken
      through the state machine has visited resolved or closed, whatever its status is now. */
  lemma ResolvedIffPathVisited(steps: seq<Step>, s: Step, t: TicketId)
    requires UpTo(steps, Time(s)) && Looks(Run(steps).desk, s, t)
    ensures var e := Run(steps + [s]);
            && t in e.slas && t in e.desk.tickets
            && (e.slas[t].resolution.metAt.Some? <==> Visits(MovesOf(e.desk, t)))
  {
    var desk := Run(steps).desk;
    var ws := desk.tickets[t].workspace;
    LookRecordsHistory(steps, s, t, Resolution);
    ReachableIsHealthy(steps, Time(s));
    StatusEventsAreEvents(desk.audit, ws, t);
    hide Run;
    assert forall e :: e in StatusEvents(desk.audit, ws, t) ==> NewEvent(desk, e, e.at);
    ResolvesIffVisits(StatusEvents(desk.audit, ws, t));
  }

  // ---- who stops the clocks ---------------------------------------------------------------------

  // The steps that can meet an objective.
  predicate Meets(s: Step, o: Objective) {
    match o
    case FirstResponse => s.NewMessage? && s.direction == Outbound
    case Resolution => s.Move? && Terminal(s.target)
  }

  // What a step that cannot meet an objective adds to the logs is no reply, and resolves nothing.
  predicate AddsNothing(desk: Desk, d: Desk, s: Step) {
    && (d.messages != desk.messages && !Meets(s, FirstResponse) ==>
          |d.messages| > |desk.messages| && d.messages[|desk.messages|].direction == Inbound)
    && (d.audit != desk.audit && !Meets(s, Resolution) ==>
          |d.audit| > |desk.audit|
          && (d.audit[|desk.audit|].action == TicketStatusChanged ==> !Resolves(d.audit[|desk.audit|])))
  }

  lemma PortalAddsNothing(desk: Desk, p: Portal.Step)
    ensures AddsNothing(desk, Portal.Apply(desk, p), InPortal(p))
  {
  }

  lemma TicketStepAddsNothing(desk: Desk, s: Step)
    requires OnTicket(s)
    ensures AddsNothing(desk, ApplyDesk(desk, s), s)
  {
  }

  lemma OtherStepAddsNothing(desk: Desk, s: Step)
    requires !OnTicket(s) && !s.InPortal?
    ensures AddsNothing(desk, ApplyDesk(desk, s), s)
  {
  }

  lemma StepAddsNothing(desk: Desk, s: Step)
    ensures AddsNothing(desk, ApplyDesk(desk, s), s)
  {
    if s.InPortal? {
      hide AddsNothing;
      PortalAddsNothing(desk, s.step);
    } else if OnTicket(s) {
      hide *;
      TicketStepAddsNothing(desk, s);
    } else {
      hide *;
      OtherStepAddsNothing(desk, s);
    }
  }

  lemma RepliesOnlyByMessage(desk: Desk, d: Desk, before: int, now: int, s: Step, ws: WorkspaceId, t: TicketId)
    requires Wired(desk) && Dated(desk, before) && before <= now && Grows(desk, d, now) && AddsNothing(desk, d, s)
    ensures FirstOutboundAt(d, ws, t) == FirstOutboundAt(desk, ws, t)
            || (Meets(s, FirstResponse)
                && FirstOutboundAt(desk, ws, t) == None && FirstOutboundAt(d, ws, t) == Some(now))
  {
    OutboundIsStable(desk, d, before, now, ws, t);
    var threads, threads' := Threads(desk.conversations, ws, t), Threads(d.conversations, ws, t);
    if d.conversations != desk.conversations {
      var c := d.conversations[|desk.conversations|];
      assert d.conversations == desk.conversations + [c];
      ForeignThreadIsSilent(desk.messages, ws, threads, c.id);
      assert threads' == threads || threads' == threads + {c.id};
    }
    assert EarliestReply(desk.messages, ws, threads') == EarliestReply(desk.messages, ws, threads);
  }

  lemma ResolvesOnlyByMove(desk: Desk, d: Desk, now: int, s: Step, ws: WorkspaceId, t: TicketId)
    requires Grows(desk, d, now) && AddsNothing(desk, d, s)
    ensures FirstResolvedAt(d, ws, t) == FirstResolvedAt(desk, ws, t)
            || (Meets(s, Resolution) && FirstResolvedAt(desk, ws, t) == None && FirstResolvedAt(d, ws, t) == Some(now))
  {
    EventsAppend(desk.audit, d.audit, ws, t);
    if d.audit != desk.audit {
      ResolutionAppends(StatusEvents(desk.audit, ws, t), d.audit[|desk.audit|]);
    }
  }

  lemma ClockMoves(desk: Desk, s: Step, before: int, ws: WorkspaceId, t: TicketId, o: Objective)
    requires Wired(desk) && Dated(desk, before) && before <= Time(s)
    ensures var x, y := MetAt(desk, ws, t, o), MetAt(ApplyDesk(desk, s), ws, t, o);
            y == x || (x == None && y == Some(Time(s)) && Meets(s, o))
  {
    hide ApplyDesk, AddsNothing, Meets, Wired, Dated, Grows;
    var d := ApplyDesk(desk, s);
    StepGrows(desk, s);
    StepAddsNothing(desk, s);
    match o
    case FirstResponse => RepliesOnlyByMessage(desk, d, before, Time(s), s, ws, t);
    case Resolution => ResolvesOnlyByMove(desk, d, Time(s), s, ws, t);
  }

  /** Only an operator's outbound message meets the response objective and only a transition to resolved
      or closed the resolution objective, each at its own instant and once; nothing a client writes,
      in the portal or otherwise, does. */
  lemma OnlyOperatorsStopTheClocks(steps: seq<Step>, now: int, s: Step, ws: WorkspaceId, t: TicketId, o: Objective)
    requires UpTo(steps, now) && now <= Time(s)
    ensures var before, after := MetAt(Run(steps).desk, ws, t, o), MetAt(Run(steps + [s]).desk, ws, t, o);
            after == before || (before == None && after == Some(Time(s)) && Meets(s, o))
  {
    RunThen(steps, s);
    DeskOfApply(Run(steps), s);
    ReachableIsHealthy(steps, now);
    hide Run, Apply, ApplyDesk, Meets, MetAt;
    ClockMoves(Run(steps).desk, s, now, ws, t, o);
  }

  lemma ReplyIsFound(desk: Desk, d: Desk, ws: WorkspaceId, t: TicketId, m: Message)
    requires m.direction == Outbound && m.workspace == ws && m.conversation in Threads(desk.conversations, ws, t)
    requires d.conversations == desk.conversations && d.messages == desk.messages + [m]
    requires FirstOutboundAt(desk, ws, t) == None
    ensures FirstOutboundAt(d, ws, t) == Some(m.at)
  {
    assert d.messages[..|d.messages| - 1] == desk.messages;
  }

  lemma MoveIsFound(desk: Desk, d: Desk, ws: WorkspaceId, t: TicketId, e: AuditEvent)
    requires IsStatusEvent(e, ws, t) && Resolves(e) && d.audit == desk.audit + [e]
    requires FirstResolvedAt(desk, ws, t) == None
    ensures FirstResolvedAt(d, ws, t) == Some(e.at)
  {
    EventsAppend(desk.audit, d.audit, ws, t);
    ResolutionAppends(StatusEvents(desk.audit, ws, t), e);
  }

  /** And each does: the first reply that is accepted in a conversation of the ticket meets the response
      objective, and the first accepted transition of the ticket to resolved or closed the resolution objective. */
  lemma OperatorsStopTheClocks(steps: seq<Step>, s: Step, ws: WorkspaceId, t: TicketId, o: Objective)
    requires Effect(Run(steps), s).Success? && Meets(s, o) && s.ws == ws && s.ticket == t
    requires MetAt(Run(steps).desk, ws, t, o) == None
    ensures MetAt(Run(steps + [s]).desk, ws, t, o) == Some(Time(s))
  {
    RunThen(steps, s);
    var desk, d := Run(steps).desk, Run(steps + [s]).desk;
    DeskOfApply(Run(steps), s);
    hide Run, Apply;
    match o {
      case FirstResponse =>
        var m := Message(s.message, ws, s.conversation, Some(s.actor), Outbound, s.body, s.at);
        assert d.messages == desk.messages + [m] && d.conversations == desk.conversations;
        hide ApplyDesk, FirstOutboundAt;
        ReplyIsFound(desk, d, ws, t, m);
      case Resolution =>
        var e := d.audit[|desk.audit|];
        assert d.audit == desk.audit + [e] && IsStatusEvent(e, ws, t) && Resolves(e) && e.at == s.at;
        hide ApplyDesk, FirstResolvedAt, IsStatusEvent, Resolves;
        MoveIsFound(desk, d, ws, t, e);
    }
  }

  /** The audit trail lists a ticket's status events in chronological order, so the first one listed that
      resolves is the earliest. */
  lemma FirstResolutionIsEarliest(steps: seq<Step>, now: int, ws: WorkspaceId, t: TicketId, e: AuditEvent)
    requires UpTo(steps, now)
    requires e in Run(steps).desk.audit && IsStatusEvent(e, ws, t) && Resolves(e)
    ensures var first := FirstResolvedAt(Run(steps).desk, ws, t);
            first.Some? && first.value <= e.at
  {
    ReachableIsHealthy(steps, now);
    EarliestAmong(Run(steps).desk.audit, ws, t, e);
  }

  lemma {:induction false} EarliestAmong(audit: seq<AuditEvent>, ws: WorkspaceId, t: TicketId, e: AuditEvent)
    requires forall i, j :: 0 <= i < j < |audit| ==> audit[i].at <= audit[j].at
    requires e in audit && IsStatusEvent(e, ws, t) && Resolves(e)
    ensures var first := FirstResolution(StatusEvents(audit, ws, t));
            first.Some? && first.value <= e.at
  {
    var n := |audit| - 1;
    var front, last := audit[..n], audit[n];
    var events := StatusEvents(front, ws, t);
    EventsAppend(front, audit, ws, t);
    if IsStatusEvent(last, ws, t) {
      ResolutionAppends(events, last);
    }
    if e in front {
      EarliestAmong(front, ws, t, e);
    } else if FirstResolution(events).Some? {
      ResolutionIsListed(events);
      StatusEventsAreEvents(front, ws, t);
    }
  }

  lemma {:induction false} ResolutionIsListed(events: seq<AuditEvent>)
    requires FirstResolution(events).Some?
    ensures exists e :: e in events && Resolves(e) && e.at == FirstResolution(events).value
  {
    if Resolves(events[0]) {
      assert events[0] in events;
    } else {
      ResolutionIsListed(events[1..]);
    }
  }
}
