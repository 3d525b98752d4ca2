/** What every reachable desk satisfies: dates, foreign keys, and the two logs that replay to the
    current state of a ticket, its status and its assignee. */
module Lifecycle {
  import opened Wrappers
  import opened TicketEnums
  import opened Store
  import opened SlaClock
  import opened History
  import Portal

  // No row is dated after the clock, and the audit trail is in chronological order.
  predicate Dated(desk: Desk, now: int) {
    && (forall m :: m in desk.messages ==> m.at <= now)
    && (forall e :: e in desk.audit ==> e.at <= now)
    && (forall i, j :: 0 <= i < j < |desk.audit| ==> desk.audit[i].at <= desk.audit[j].at)
  }

  // Messages point at conversations, conversations at tickets, and so do status events, which also
  // record both ends of their move.
  predicate Wired(desk: Desk) {
    && Threaded(desk)
    && (forall c :: c in desk.conversations ==> InWorkspace(desk, c.workspace, c.ticket))
    && (forall e :: e in desk.audit ==> NewEvent(desk, e, e.at))
  }

  lemma GrowthKeepsDated(desk: Desk, d: Desk, before: int, now: int)
    requires Dated(desk, before) && before <= now && Grows(desk, d, now)
    ensures Dated(d, now)
  {
    GrowthIsRecent(desk.messages, d.messages);
    GrowthIsRecent(desk.audit, d.audit);
    hide NewEvent, NewThread, KeepsTicket, HasThread;
  }

  lemma GrowthIsRecent<T>(xs: seq<T>, ys: seq<T>)
    requires Appends(xs, ys)
    ensures forall y :: y in ys ==> y in xs || (|ys| > |xs| && y == ys[|xs|])
    ensures forall i :: 0 <= i < |xs| ==> ys[i] == xs[i]
  {
  }

  lemma GrowthKeepsThreads(desk: Desk, d: Desk, now: int)
    requires Wired(desk) && Grows(desk, d, now)
    ensures forall id :: HasThread(desk.conversations, id) ==> HasThread(d.conversations, id)
  {
    forall id | HasThread(desk.conversations, id)
      ensures HasThread(d.conversations, id)
    {
      var c :| c in desk.conversations && c.id == id;
      assert c in d.conversations;
    }
  }

  lemma GrowthKeepsWired(desk: Desk, d: Desk, now: int)
    requires Wired(desk) && Grows(desk, d, now)
    ensures Wired(d)
  {
    GrowthKeepsThreads(desk, d, now);
    assert forall m :: m in d.messages ==> m in desk.messages || m == d.messages[|desk.messages|];
    assert forall c :: c in d.conversations ==> c in desk.conversations || c == d.conversations[|desk.conversations|];
    assert forall e :: e in d.audit ==> e in desk.audit || e == d.audit[|desk.audit|];
  }

  // ---- the audit trail replays the lifecycle ----------------------------------------------------

  // The moves a list of status events records.
  function Moves(events: seq<AuditEvent>): seq<TicketEnums.Move> {
    if events == [] then []
    else
      var rest, last := Moves(events[..|events| - 1]), events[|events| - 1];
      match last.metadata
      case Fields(Some(from), Some(to)) => rest + [TicketEnums.Move(from, to)]
      case _ => rest
  }

  function MovesOf(desk: Desk, t: TicketId): seq<TicketEnums.Move>
    requires t in desk.tickets
  {
    Moves(StatusEvents(desk.audit, desk.tickets[t].workspace, t))
  }

  predicate Replays(desk: Desk) {
    forall t :: t in desk.tickets ==> Replay(MovesOf(desk, t)) == Some(desk.tickets[t].status)
  }

  // How the statuses and the status events move together in one step.
  predicate MovesTogether(desk: Desk, d: Desk) {
    && (forall t :: t in d.tickets && t !in desk.tickets ==> d.tickets[t].status == New)
    && ((exists t, target ::
           && t in desk.tickets && IsTransitionAllowed(desk.tickets[t].status, target)
           && d.tickets == desk.tickets[t := desk.tickets[t].(status := target)]
           && |d.audit| == |desk.audit| + 1
           && var e := d.audit[|desk.audit|];
              IsStatusEvent(e, desk.tickets[t].workspace, t)
              && e.metadata == Fields(Some(desk.tickets[t].status), Some(target)))
        || ((d.audit != desk.audit ==>
               |d.audit| == |desk.audit| + 1 && d.audit[|desk.audit|].action != TicketStatusChanged)
            && forall t :: t in desk.tickets ==> t in d.tickets && d.tickets[t].status == desk.tickets[t].status))
  }

  lemma PortalMovesTogether(desk: Desk, p: Portal.Step)
    ensures MovesTogether(desk, Portal.Apply(desk, p))
  {
  }

  lemma TicketStepMovesTogether(desk: Desk, s: Step)
    requires OnTicket(s)
    ensures MovesTogether(desk, ApplyDesk(desk, s))
  {
  }

  lemma StepMovesTogether(desk: Desk, s: Step)
    ensures MovesTogether(desk, ApplyDesk(desk, s))
  {
    if s.InPortal? {
      PortalMovesTogether(desk, s.step);
    } else if OnTicket(s) {
      hide *;
      TicketStepMovesTogether(desk, s);
    } else {
      OtherStepBystands(desk, s);
      hide ApplyDesk;
    }
  }

  lemma {:induction false} NoEventsYet(audit: seq<AuditEvent>, ws: WorkspaceId, t: TicketId)
    requires forall e :: e in audit ==> !IsStatusEvent(e, ws, t)
    ensures StatusEvents(audit, ws, t) == []
  {
    if audit != [] {
      assert audit[|audit| - 1] in audit;
      NoEventsYet(audit[..|audit| - 1], ws, t);
    }
  }

  // Appending one row to the trail appends it to the status events it belongs to, and to no others.
  lemma EventsAppend(audit: seq<AuditEvent>, more: seq<AuditEvent>, ws: WorkspaceId, t: TicketId)
    requires Appends(audit, more)
    ensures StatusEvents(more, ws, t)
            == if more != audit && IsStatusEvent(more[|audit|], ws, t)
               then StatusEvents(audit, ws, t) + [more[|audit|]] else StatusEvents(audit, ws, t)
  {
  }

  lemma MoveExtendsReplay(desk: Desk, d: Desk, t: TicketId)
    requires Wired(desk) && Replays(desk)
    requires Appends(desk.audit, d.audit) && MovesTogether(desk, d)
    requires t in d.tickets && (t in desk.tickets ==> d.tickets[t].workspace == desk.tickets[t].workspace)
    ensures Replay(MovesOf(d, t)) == Some(d.tickets[t].status)
  {
    var ws := d.tickets[t].workspace;
    var events := StatusEvents(desk.audit, ws, t);
    EventsAppend(desk.audit, d.audit, ws, t);
    hide StatusEvents;
    if t !in desk.tickets {
      NoEventsYet(desk.audit, ws, t);
    } else if StatusEvents(d.audit, ws, t) != events {
      var last := d.audit[|desk.audit|];
      assert (events + [last])[..|events|] == events;
      var move := TicketEnums.Move(last.metadata.from.value, last.metadata.to.value);
      assert MovesOf(d, t) == MovesOf(desk, t) + [move];
      assert (MovesOf(desk, t) + [move])[..|MovesOf(desk, t)|] == MovesOf(desk, t);
    }
  }

  lemma StepKeepsReplays(desk: Desk, s: Step)
    requires Wired(desk) && Replays(desk)
    ensures Replays(ApplyDesk(desk, s))
  {
    var d := ApplyDesk(desk, s);
    StepGrows(desk, s);
    StepMovesTogether(desk, s);
    hide ApplyDesk, MovesTogether, Wired;
    forall t | t in d.tickets
      ensures Replay(MovesOf(d, t)) == Some(d.tickets[t].status)
    {
      MoveExtendsReplay(desk, d, t);
    }
  }

  // ---- the assignment log ends with the current assignee ----------------------------------------

  // The assignee the log gives a ticket: that of its last entry, or nobody.
  function LastAssignee(log: seq<Assignment>, t: TicketId): Option<UserId> {
    if log == [] then None
    else if log[|log| - 1].ticket == t then log[|log| - 1].assignee
    else LastAssignee(log[..|log| - 1], t)
  }

  predicate Assigned(desk: Desk) {
    && (forall a :: a in desk.assignments ==> a.ticket in desk.tickets)
    && (forall t :: t in desk.tickets ==>
          && desk.tickets[t].assignee == LastAssignee(desk.assignments, t)
          && (desk.tickets[t].assignee.Some? ==>
                (desk.tickets[t].workspace, desk.tickets[t].assignee.value) in desk.members))
  }

  lemma {:induction false} NeverAssigned(log: seq<Assignment>, t: TicketId)
    requires forall a :: a in log ==> a.ticket != t
    ensures LastAssignee(log, t) == None
  {
    if log != [] {
      assert log[|log| - 1] in log;
      NeverAssigned(log[..|log| - 1], t);
    }
  }

  predicate AssignsTogether(desk: Desk, d: Desk) {
    && desk.members <= d.members
    && (forall t :: t in desk.tickets ==> t in d.tickets && d.tickets[t].workspace == desk.tickets[t].workspace)
    && (forall t :: t in d.tickets && t !in desk.tickets ==> d.tickets[t].assignee == None)
    && if d.assignments == desk.assignments
       then forall t :: t in desk.tickets ==> d.tickets[t].assignee == desk.tickets[t].assignee
       else
         && |d.assignments| == |desk.assignments| + 1 && d.assignments[..|desk.assignments|] == desk.assignments
         && var a := d.assignments[|desk.assignments|];
            && a.ticket in desk.tickets && d.tickets.Keys == desk.tickets.Keys
            && d.tickets[a.ticket].assignee == a.assignee
            && (a.assignee.Some? ==> (d.tickets[a.ticket].workspace, a.assignee.value) in d.members)
            && forall t :: t in desk.tickets && t != a.ticket ==> d.tickets[t].assignee == desk.tickets[t].assignee
  }

  lemma PortalAssignsTogether(desk: Desk, p: Portal.Step)
    ensures AssignsTogether(desk, Portal.Apply(desk, p))
  {
  }

  lemma AssignmentAssignsTogether(desk: Desk, s: Step)
    requires s.AssignTo?
    ensures AssignsTogether(desk, ApplyDesk(desk, s))
  {
  }

  lemma EditAssignsTogether(desk: Desk, s: Step)
    requires s.NewTicket? || s.Edit? || s.Move?
    ensures AssignsTogether(desk, ApplyDesk(desk, s))
  {
  }

  lemma TicketStepAssignsTogether(desk: Desk, s: Step)
    requires OnTicket(s)
    ensures AssignsTogether(desk, ApplyDesk(desk, s))
  {
    hide AssignsTogether, ApplyDesk;
    if s.AssignTo? {
      AssignmentAssignsTogether(desk, s);
    } else {
      EditAssignsTogether(desk, s);
    }
  }

  lemma StepAssignsTogether(desk: Desk, s: Step)
    ensures AssignsTogether(desk, ApplyDesk(desk, s))
  {
    if s.InPortal? {
      PortalAssignsTogether(desk, s.step);
    } else if OnTicket(s) {
      hide *;
      TicketStepAssignsTogether(desk, s);
    } else {
      OtherStepBystands(desk, s);
      hide ApplyDesk;
    }
  }

  lemma StepKeepsAssigned(desk: Desk, s: Step)
    requires Assigned(desk)
    ensures Assigned(ApplyDesk(desk, s))
  {
    var d := ApplyDesk(desk, s);
    StepAssignsTogether(desk, s);
    hide ApplyDesk;
    forall t | t in d.tickets && t !in desk.tickets
      ensures LastAssignee(desk.assignments, t) == None
    {
      NeverAssigned(desk.assignments, t);
    }
    assert forall a :: a in d.assignments ==> a in desk.assignments || a == d.assignments[|desk.assignments|];
  }

  // ---- every reachable desk ---------------------------------------------------------------------

  predicate UpTo(steps: seq<Step>, now: int) {
    Monotone(steps) && forall i :: 0 <= i < |steps| ==> Time(steps[i]) <= now
  }

  predicate Healthy(desk: Desk, now: int) {
    Dated(desk, now) && Wired(desk) && Portal.Sound(desk) && Replays(desk) && Assigned(desk)
  }

  lemma StepKeepsHealthy(desk: Desk, s: Step, before: int)
    requires Healthy(desk, before) && before <= Time(s)
    ensures Healthy(ApplyDesk(desk, s), Time(s))
  {
    StepGrows(desk, s);
    GrowthKeepsDated(desk, ApplyDesk(desk, s), before, Time(s));
    GrowthKeepsWired(desk, ApplyDesk(desk, s), Time(s));
    StepKeepsReplays(desk, s);
    StepKeepsAssigned(desk, s);
    StepKeepsSound(desk, s);
  }

  lemma StepKeepsSound(desk: Desk, s: Step)
    requires Portal.Sound(desk)
    ensures Portal.Sound(ApplyDesk(desk, s))
  {
    if s.InPortal? {
      Portal.StepKeepsSound(desk, s.step);
    }
  }

  lemma {:induction false} ReachableIsHealthy(steps: seq<Step>, now: int)
    requires UpTo(steps, now)
    ensures Healthy(Run(steps).desk, now)
  {
    if steps != [] {
      var front, last := steps[..|steps| - 1], steps[|steps| - 1];
      ReachableIsHealthy(front, Time(last));
      StepKeepsHealthy(Run(front).desk, last, Time(last));
      DeskOfApply(Run(front), last);
    }
  }

  /** In every reachable state, replaying a ticket's status events from New gives its current status,
      so that consecutive events chain, every edge is allowed, and New is never re-entered. */
  lemma AuditReplaysLifecycle(steps: seq<Step>, now: int, t: TicketId)
    requires UpTo(steps, now) && t in Run(steps).desk.tickets
    ensures Replay(MovesOf(Run(steps).desk, t)) == Some(Run(steps).desk.tickets[t].status)
    ensures forall i :: 0 <= i < |MovesOf(Run(steps).desk, t)| ==>
              ChainedAt(MovesOf(Run(steps).desk, t), i) && MovesOf(Run(steps).desk, t)[i].to != New
  {
    ReachableIsHealthy(steps, now);
    ReplayMeaning(MovesOf(Run(steps).desk, t));
  }

  /** In every reachable state a ticket's assignee is the one its assignment log ends with, and is a
      member of the ticket's workspace. */
  lemma AssigneeIsLogged(steps: seq<Step>, now: int, t: TicketId)
    requires UpTo(steps, now) && t in Run(steps).desk.tickets
    ensures var ticket := Run(steps).desk.tickets[t];
            && ticket.assignee == LastAssignee(Run(steps).desk.assignments, t)
            && (ticket.assignee.Some? ==> (ticket.workspace, ticket.assignee.value) in Run(steps).desk.members)
  {
    ReachableIsHealthy(steps, now);
  }
}
