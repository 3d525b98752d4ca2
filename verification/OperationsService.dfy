/** The SLA methods of OperationsService (apps/api/app/services/operations_service.py), each proved to
    do to the rows what its function in SlaClock says, in whatever order the queries list the rows. */
module Operations {
  import opened Wrappers
  import opened TicketEnums
  import opened Store
  import opened SlaClock

  // A SELECT without ORDER BY: some listing of the rows, each once.
  method Listing(ts: set<TicketId>) returns (items: seq<TicketId>)
    ensures forall t :: t in items <==> t in ts
    ensures forall i, j :: 0 <= i < j < |items| ==> items[i] != items[j]
  {
    items := [];
    var rest := ts;
    while rest != {}
      invariant rest <= ts
      invariant forall t :: t in items <==> t in ts - rest
      invariant forall i, j :: 0 <= i < j < |items| ==> items[i] != items[j]
    {
      var t :| t in rest;
      assert t !in items;
      items, rest := items + [t], rest - {t};
    }
  }

  // ---- how the sweep over a set of tickets grows by one ------------------------------------------

  lemma AttachNone(db: Db)
    ensures Attach(db, {}) == db
  {
    assert Attach(db, {}).slas == db.slas && Attach(db, {}).policies == db.policies;
  }

  lemma PoliciesOneMore(policies: map<PolicyKey, Policy>, keys: set<PolicyKey>, key: PolicyKey)
    ensures WithDefaults(WithDefaults(policies, keys), {key}) == WithDefaults(policies, keys + {key})
  {
  }

  lemma FreshSlaAfterAttach(db: Db, ts: set<TicketId>, t: TicketId)
    requires ts <= db.desk.tickets.Keys && t in db.desk.tickets
    ensures FreshSla(Attach(db, ts), t) == FreshSla(db, t)
  {
    assert PolicyInForce(Attach(db, ts), KeyOf(db, t)) == PolicyInForce(db, KeyOf(db, t));
  }

  lemma AttachOneMore(db: Db, done: set<TicketId>, t: TicketId)
    requires done <= db.desk.tickets.Keys && t in db.desk.tickets
    requires t !in done && t !in db.slas
    ensures t !in Attach(db, done).slas
    ensures Attach(Attach(db, done), {t}) == Attach(db, done + {t})
  {
    hide FreshSla, WithDefaults;
    var d := Attach(db, done);
    FreshSlaAfterAttach(db, done, t);
    PoliciesOneMore(db.policies, KeysOf(db, done), KeyOf(db, t));
    assert KeysOf(db, done + {t}) == KeysOf(db, done) + {KeyOf(db, t)} && KeysOf(d, {t}) == {KeyOf(db, t)};
    var a, b := Attach(d, {t}), Attach(db, done + {t});
    assert a.slas.Keys == b.slas.Keys;
    forall u | u in b.slas
      ensures a.slas[u] == b.slas[u]
    {
    }
  }

  lemma AlertsOneMore(db: Db, done: set<TicketId>, t: TicketId, now: int)
    requires done <= db.slas.Keys && done <= db.desk.tickets.Keys
    requires t in db.slas && t in db.desk.tickets && t !in done
    ensures Alerts(db, done + {t}, now) == Alerts(db, done, now) + Alerts(db, {t}, now)
    ensures Alerts(db, done, now) !! Alerts(db, {t}, now)
  {
    var x, y := Alerts(db, done, now), Alerts(db, {t}, now);
    assert forall n :: n in x ==> n.ticket in done;
    assert forall n :: n in y ==> n.ticket == t;
  }

  lemma SweepOneMore(db: Db, done: set<TicketId>, t: TicketId, now: int)
    requires done <= db.slas.Keys && done <= db.desk.tickets.Keys
    requires t in db.slas && t in db.desk.tickets && t !in done
    ensures SweepAll(db, done + {t}, now)
            == var d := SweepAll(db, done, now);
               d.(slas := d.slas[t := Evaluated(db, t, now)],
                  notifications := d.notifications + multiset(Alerts(db, {t}, now)))
  {
    hide Evaluated, Alert;
    AlertsOneMore(db, done, t, now);
    var d := SweepAll(db, done, now);
    var x, y := Alerts(db, done, now), Alerts(db, {t}, now);
    assert multiset(x + y) == multiset(x) + multiset(y);
    var b := SweepAll(db, done + {t}, now);
    assert b.slas == d.slas[t := Evaluated(db, t, now)];
    assert b.notifications == d.notifications + multiset(y);
  }

  lemma CountOneMore(x: set<Notification>, y: set<Notification>, kind: NotificationType)
    requires x !! y
    ensures |OfKind(x + y, kind)| == |OfKind(x, kind)| + |OfKind(y, kind)|
  {
    assert OfKind(x + y, kind) == OfKind(x, kind) + OfKind(y, kind);
  }

  // The alerts of one ticket, objective by objective.
  function Sent(a: Option<Notification>): set<Notification> {
    match a
    case None => {}
    case Some(n) => {n}
  }

  function KindOf(a: Option<Notification>): Option<NotificationType> {
    match a
    case None => None
    case Some(n) => Some(n.kind)
  }

  lemma AlertsOfOne(db: Db, t: TicketId, now: int)
    requires t in db.slas && t in db.desk.tickets
    ensures Alerts(db, {t}, now) == Sent(Alert(db, t, now, FirstResponse)) + Sent(Alert(db, t, now, Resolution))
    ensures Sent(Alert(db, t, now, FirstResponse)) !! Sent(Alert(db, t, now, Resolution))
  {
  }

  function MarkRow(item: TicketSla, o: Objective, kind: Option<NotificationType>): TicketSla {
    match o
    case FirstResponse => item.(response := Mark(item.response, kind))
    case Resolution => item.(resolution := Mark(item.resolution, kind))
  }

  function Message(ws: WorkspaceId, user: UserId, t: TicketId, o: Objective, kind: Option<NotificationType>)
    : multiset<Notification>
  {
    match kind
    case None => multiset{}
    case Some(k) => multiset{Notification(ws, user, t, k, o)}
  }

  // The rows once an objective has been marked and its notification, if any, sent.
  function AfterObjective(db: Db, ws: WorkspaceId, t: TicketId, o: Objective, kind: Option<NotificationType>): Db
    requires t in db.slas && t in db.desk.tickets
  {
    db.(slas := db.slas[t := MarkRow(db.slas[t], o, kind)],
        notifications := db.notifications + Message(ws, Recipient(db.desk.tickets[t]), t, o, kind))
  }

  lemma AfterBoth(r: Db, ws: WorkspaceId, t: TicketId, item: TicketSla,
                  first: Option<NotificationType>, second: Option<NotificationType>)
    requires t in r.desk.tickets
    ensures var user := Recipient(r.desk.tickets[t]);
            AfterObjective(AfterObjective(r.(slas := r.slas[t := item]), ws, t, FirstResponse, first),
                           ws, t, Resolution, second)
            == r.(slas := r.slas[t := MarkRow(MarkRow(item, FirstResponse, first), Resolution, second)],
                  notifications := r.notifications + (Message(ws, user, t, FirstResponse, first)
                                                      + Message(ws, user, t, Resolution, second)))
  {
  }

  lemma AlertMessages(d: Db, t: TicketId, now: int)
    requires t in d.slas && t in d.desk.tickets
    ensures var ws, user := d.slas[t].workspace, Recipient(d.desk.tickets[t]);
            multiset(Alerts(d, {t}, now))
            == Message(ws, user, t, FirstResponse, KindOf(Alert(d, t, now, FirstResponse)))
               + Message(ws, user, t, Resolution, KindOf(Alert(d, t, now, Resolution)))
  {
    AlertsOfOne(d, t, now);
    var a, b := Sent(Alert(d, t, now, FirstResponse)), Sent(Alert(d, t, now, Resolution));
    assert multiset(a + b) == multiset(a) + multiset(b);
  }

  // The rows in the middle of the turn of ticket t: the tickets of done are swept, t is refreshed.
  function MidTurn(d: Db, done: set<TicketId>, t: TicketId, now: int): Db
    requires done <= d.slas.Keys && done <= d.desk.tickets.Keys && t in d.slas
  {
    var r := SweepAll(d, done, now);
    r.(slas := r.slas[t := Refreshed(d.desk, d.slas[t].workspace, t, d.slas[t])])
  }

  lemma RefreshStartsTurn(d: Db, done: set<TicketId>, t: TicketId, now: int)
    requires done <= d.slas.Keys && done <= d.desk.tickets.Keys
    requires t in d.slas && InWorkspace(d.desk, d.slas[t].workspace, t) && t !in done
    ensures var r := SweepAll(d, done, now); r.desk == d.desk && t in r.slas && r.slas[t] == d.slas[t]
    ensures var r := MidTurn(d, done, t, now); r.desk == d.desk && t in r.slas
    ensures ReadSla(SweepAll(d, done, now), d.slas[t].workspace, t) == Success(MidTurn(d, done, t, now))
    ensures forall o :: DueOf(MidTurn(d, done, t, now), MidTurn(d, done, t, now).slas[t], o, now)
                        == KindOf(Alert(d, t, now, o))
  {
    hide Evaluated, Refreshed, Alerts;
  }

  // Refreshing, then looking at both objectives, is one turn of the sweep.
  lemma TurnIsSweep(d: Db, done: set<TicketId>, t: TicketId, now: int)
    requires done <= d.slas.Keys && done <= d.desk.tickets.Keys
    requires t in d.slas && t in d.desk.tickets && t !in done
    ensures var ws := d.slas[t].workspace;
            var first, second := KindOf(Alert(d, t, now, FirstResponse)), KindOf(Alert(d, t, now, Resolution));
            AfterObjective(AfterObjective(MidTurn(d, done, t, now), ws, t, FirstResponse, first),
                           ws, t, Resolution, second)
            == SweepAll(d, done + {t}, now)
  {
    SweepOneMore(d, done, t, now);
    AlertMessages(d, t, now);
    var ws := d.slas[t].workspace;
    var first, second := KindOf(Alert(d, t, now, FirstResponse)), KindOf(Alert(d, t, now, Resolution));
    var item := Refreshed(d.desk, ws, t, d.slas[t]);
    AfterBoth(SweepAll(d, done, now), ws, t, item, first, second);
    assert MarkRow(MarkRow(item, FirstResponse, first), Resolution, second) == Evaluated(d, t, now);
  }

  // The three counters once the tickets of done have had their turn.
  function Tally(db: Db, done: set<TicketId>, now: int): Counts
    requires done <= db.slas.Keys && done <= db.desk.tickets.Keys
  {
    var alerts := Alerts(db, done, now);
    Counts(|done|, |OfKind(alerts, SlaWarning)|, |OfKind(alerts, SlaBreached)|)
  }

  function Bump(sent: Option<NotificationType>, kind: NotificationType): nat {
    if sent == Some(kind) then 1 else 0
  }

  lemma CountTurn(db: Db, done: set<TicketId>, t: TicketId, now: int, kind: NotificationType)
    requires done <= db.slas.Keys && done <= db.desk.tickets.Keys
    requires t in db.slas && t in db.desk.tickets && t !in done
    ensures |OfKind(Alerts(db, done + {t}, now), kind)|
            == |OfKind(Alerts(db, done, now), kind)|
               + Bump(KindOf(Alert(db, t, now, FirstResponse)), kind)
               + Bump(KindOf(Alert(db, t, now, Resolution)), kind)
  {
    AlertsOneMore(db, done, t, now);
    AlertsOfOne(db, t, now);
    var a, b := Alert(db, t, now, FirstResponse), Alert(db, t, now, Resolution);
    CountOneMore(Alerts(db, done, now), Sent(a) + Sent(b), kind);
    CountOneMore(Sent(a), Sent(b), kind);
    CountSent(a, kind);
    CountSent(b, kind);
  }

  lemma CountSent(a: Option<Notification>, kind: NotificationType)
    ensures |OfKind(Sent(a), kind)| == Bump(KindOf(a), kind)
  {
    assert OfKind(Sent(a), kind) == if KindOf(a) == Some(kind) then Sent(a) else {};
  }

  // What one turn adds to each counter.
  lemma TurnCounts(db: Db, done: set<TicketId>, t: TicketId, now: int,
                   first: Option<NotificationType>, second: Option<NotificationType>)
    requires done <= db.slas.Keys && done <= db.desk.tickets.Keys
    requires t in db.slas && t in db.desk.tickets && t !in done
    requires first == KindOf(Alert(db, t, now, FirstResponse)) && second == KindOf(Alert(db, t, now, Resolution))
    ensures var before, after := Tally(db, done, now), Tally(db, done + {t}, now);
            && after.evaluated == before.evaluated + 1
            && after.warnings == before.warnings + Bump(first, SlaWarning) + Bump(second, SlaWarning)
            && after.breaches == before.breaches + Bump(first, SlaBreached) + Bump(second, SlaBreached)
  {
    CountTurn(db, done, t, now, SlaWarning);
    CountTurn(db, done, t, now, SlaBreached);
  }

  lemma SweepNone(db: Db, now: int)
    ensures SweepAll(db, {}, now) == db && Alerts(db, {}, now) == {}
  {
    assert Alerts(db, {}, now) == {};
    assert SweepAll(db, {}, now).slas == db.slas;
  }

  // Where an exception escapes evaluate_sla: halfway through attaching the row of a ticket, halfway through
  // a turn of the sweep, or as the transaction commits.
  datatype Fault = Attaching(turn: nat) | Turning(turn: nat) | Committing

  class OperationsService {
    const db: Database

    constructor (db: Database)
      ensures this.db == db
    {
      this.db := db;
    }

    method EnsurePolicy(key: PolicyKey) returns (policy: Policy)
      modifies db`rows
      ensures policy == PolicyInForce(old(db.rows), key) && policy.active
      ensures key in old(db.rows).policies && old(db.rows).policies[key].active ==> policy == old(db.rows).policies[key]
      ensures db.rows == old(db.rows).(policies := old(db.rows).policies[key := policy])
    {
      if HasPolicy(db.rows, key) {
        policy := db.rows.policies[key];
        assert db.rows.policies == db.rows.policies[key := policy];
      } else {
        policy := DefaultPolicy(key.priority);
        db.rows := db.rows.(policies := db.rows.policies[key := policy]);
      }
    }

    method AttachSla(t: TicketId)
      requires t in db.rows.desk.tickets
      modifies db`rows
      ensures db.rows == if t in old(db.rows).slas then old(db.rows) else Attach(old(db.rows), {t})
    {
      if t in db.rows.slas {
        return;
      }
      var ticket := db.rows.desk.tickets[t];
      var key := PolicyKey(ticket.workspace, ticket.priority);
      var policy := EnsurePolicy(key);
      var item := TicketSla(ticket.workspace, key,
                            FreshTrack(ticket.createdAt + policy.firstResponseMinutes * MINUTE),
                            FreshTrack(ticket.createdAt + policy.resolutionMinutes * MINUTE));
      db.rows := db.rows.(slas := db.rows.slas[t := item]);
      ghost var d := Attach(old(db.rows), {t});
      assert KeysOf(old(db.rows), {t}) == {key};
      assert db.rows.policies == d.policies;
      assert db.rows.slas == d.slas;
    }

    method MaterializeWorkspaceSlas(ws: WorkspaceId, fault: Option<Fault>) returns (r: Outcome<Error>)
      modifies db`rows
      ensures fault.None? ==> r.Pass?
      ensures r.Pass? ==> db.rows == Materialize(old(db.rows), ws)
    {
      hide FreshSla, WithDefaults;
      var items := Listing(WithoutSla(db.rows, ws));
      ghost var done: set<TicketId> := {};
      AttachNone(db.rows);
      for i := 0 to |items|
        invariant done == set t | t in items[..i]
        invariant done <= WithoutSla(old(db.rows), ws)
        invariant db.rows == Attach(old(db.rows), done)
      {
        assert items[i] in WithoutSla(old(db.rows), ws) && items[i] !in done;
        if fault == Some(Attaching(i)) {
          var _ := EnsurePolicy(KeyOf(db.rows, items[i]));
          return Fail(Crashed);
        }
        AttachOneMore(old(db.rows), done, items[i]);
        AttachSla(items[i]);
        done := done + {items[i]};
        assert items[..i + 1] == items[..i] + [items[i]];
      }
      assert items[..|items|] == items;
      assert done == WithoutSla(old(db.rows), ws);
      r := Pass;
    }

    // The loop over the audit rows: rows that do not parse are skipped, the first that resolves wins.
    method ResolutionIn(events: seq<AuditEvent>) returns (at: Option<int>)
      ensures at == FirstResolution(events)
    {
      at := None;
      for i := 0 to |events|
        invariant FirstResolution(events) == FirstResolution(events[i..])
      {
        match events[i].metadata {
          case Malformed =>
          case Fields(_, to) =>
            if to == Some(Resolved) || to == Some(Closed) {
              return Some(events[i].at);
            }
        }
        assert events[i..][1..] == events[i + 1..];
      }
    }

    method RefreshSlaFromHistory(ws: WorkspaceId, t: TicketId)
      requires InWorkspace(db.rows.desk, ws, t)
      requires t in db.rows.slas ==> db.rows.slas[t].workspace == ws
      modifies db`rows
      ensures ReadSla(old(db.rows), ws, t) == Success(db.rows)
    {
      AttachSla(t);
      var item := db.rows.slas[t];
      if item.response.metAt.None? {
        var first := FirstOutboundAt(db.rows.desk, ws, t);
        if first.Some? {
          item := item.(response := item.response.(metAt := first, breached := first.value > item.response.dueAt));
        }
      }
      if item.resolution.metAt.None? {
        var at := ResolutionIn(StatusEvents(db.rows.desk.audit, ws, t));
        if at.Some? {
          item := item.(resolution := item.resolution.(metAt := at, breached := at.value > item.resolution.dueAt));
        }
      }
      db.rows := db.rows.(slas := db.rows.slas[t := item]);
    }

    method UpsertPolicy(key: PolicyKey, first: int, resolution: int, warning: int, now: int)
      returns (r: Outcome<Error>)
      modifies db
      ensures db.Performed(AfterPolicy(old(db.rows), key, first, resolution, warning, now),
                           old(db.rows), old(db.committed), r)
    {
      if warning >= (if first <= resolution then first else resolution) {
        return Fail(Invalid);
      }
      db.rows := db.rows.(policies := db.rows.policies[key := Policy(first, resolution, warning, true)]);
      db.Record(key.workspace, PolicyUpdated, OtherResource(0), NO_FIELDS, now);
      db.Commit();
      r := Pass;
    }

    method GetTicketSla(ws: WorkspaceId, t: TicketId) returns (r: Outcome<Error>)
      modifies db
      ensures db.Performed(ReadSla(old(db.rows), ws, t), old(db.rows), old(db.committed), r)
    {
      if !InWorkspace(db.rows.desk, ws, t) {
        return Fail(NotFound);
      }
      if t in db.rows.slas && db.rows.slas[t].workspace != ws {
        return Fail(Conflict);
      }
      RefreshSlaFromHistory(ws, t);
      db.Commit();
      r := Pass;
    }

    method SlaNotification(ws: WorkspaceId, user: UserId, t: TicketId, o: Objective, kind: NotificationType)
      modifies db`rows
      ensures db.rows == old(db.rows).(notifications :=
                old(db.rows).notifications + multiset{Notification(ws, user, t, kind, o)})
    {
      var n := Notification(ws, user, t, kind, o);
      db.rows := db.rows.(notifications := db.rows.notifications + multiset{n});
    }

    // The if/elif of the sweep for one objective: mark the flag, send at most one notification.
    method SweepObjective(ws: WorkspaceId, t: TicketId, o: Objective, now: int, warning: int)
      returns (kind: Option<NotificationType>)
      requires t in db.rows.slas && t in db.rows.desk.tickets
      modifies db`rows
      ensures kind == Due(TrackOf(old(db.rows).slas[t], o), now, warning)
      ensures db.rows == AfterObjective(old(db.rows), ws, t, o, kind)
      ensures kind.Some? ==>
                var ticket := old(db.rows).desk.tickets[t];
                var user := if ticket.assignee.Some? then ticket.assignee.value else ticket.creator;
                db.rows.notifications == old(db.rows).notifications + multiset{Notification(ws, user, t, kind.value, o)}
    {
      var item := db.rows.slas[t];
      var track := TrackOf(item, o);
      var user := Recipient(db.rows.desk.tickets[t]);
      kind := None;
      if track.metAt.None? {
        if now >= track.dueAt && !track.breached {
          kind := Some(SlaBreached);
        } else if now >= track.dueAt - warning && !track.warningSent {
          kind := Some(SlaWarning);
        }
      }
      db.rows := db.rows.(slas := db.rows.slas[t := MarkRow(item, o, kind)]);
      if kind.Some? {
        SlaNotification(ws, user, t, o, kind.value);
      }
    }

    // Both objectives of a refreshed row, unless its policy is gone.
    method SweepRow(ws: WorkspaceId, t: TicketId, now: int)
      returns (first: Option<NotificationType>, second: Option<NotificationType>)
      requires t in db.rows.slas && t in db.rows.desk.tickets
      modifies db`rows
      ensures first == DueOf(old(db.rows), old(db.rows).slas[t], FirstResponse, now)
      ensures second == DueOf(old(db.rows), old(db.rows).slas[t], Resolution, now)
      ensures db.rows
              == AfterObjective(AfterObjective(old(db.rows), ws, t, FirstResponse, first), ws, t, Resolution, second)
    {
      var item := db.rows.slas[t];
      first, second := None, None;
      if item.policy in db.rows.policies {
        var warning := db.rows.policies[item.policy].warningMinutes * MINUTE;
        first := SweepObjective(ws, t, FirstResponse, now, warning);
        second := SweepObjective(ws, t, Resolution, now, warning);
      } else {
        assert AfterObjective(AfterObjective(db.rows, ws, t, FirstResponse, None), ws, t, Resolution, None).slas
               == db.rows.slas;
      }
    }

    // One turn of the loop: refresh the row, then look at both objectives and count what was sent.
    method Turn(ws: WorkspaceId, t: TicketId, now: int, counts: Counts, ghost d: Db, ghost done: set<TicketId>)
      returns (r: Counts)
      requires done <= d.slas.Keys && done <= d.desk.tickets.Keys
      requires t in d.slas && InWorkspace(d.desk, ws, t) && d.slas[t].workspace == ws && t !in done
      requires db.rows == SweepAll(d, done, now)
      requires counts == Tally(d, done, now)
      modifies db`rows
      ensures db.rows == SweepAll(d, done + {t}, now)
      ensures r == Tally(d, done + {t}, now)
    {
      hide SweepAll, MidTurn, ReadSla, DueOf, AfterObjective, Alert, Tally;
      RefreshStartsTurn(d, done, t, now);
      RefreshSlaFromHistory(ws, t);
      var first, second := SweepRow(ws, t, now);
      TurnIsSweep(d, done, t, now);
      TurnCounts(d, done, t, now, first, second);
      r := Counts(counts.evaluated + 1,
                  counts.warnings + Bump(first, SlaWarning) + Bump(second, SlaWarning),
                  counts.breaches + Bump(first, SlaBreached) + Bump(second, SlaBreached));
    }

    // The loop of evaluate_sla.
    method SweepItems(ws: WorkspaceId, now: int, items: seq<TicketId>, fault: Option<Fault>)
      returns (r: Result<Counts, Error>)
      requires forall t :: t in items <==> t in ActiveSlas(db.rows, ws)
      requires forall i, j :: 0 <= i < j < |items| ==> items[i] != items[j]
      modifies db`rows
      ensures fault.None? ==> r.Success?
      ensures r.Success? ==> db.rows == SweepAll(old(db.rows), Swept(old(db.rows), ws), now)
      ensures r.Success? ==> r.value == Tally(old(db.rows), Swept(old(db.rows), ws), now)
    {
      var counts := Counts(0, 0, 0);
      ghost var d, done := db.rows, {};
      SweepNone(d, now);
      for i := 0 to |items|
        invariant done <= Swept(d, ws)
        invariant forall t :: t in done ==> t in items[..i]
        invariant forall t :: t in items[..i] && t in Swept(d, ws) ==> t in done
        invariant db.rows == SweepAll(d, done, now)
        invariant counts == Tally(d, done, now)
      {
        var t := items[i];
        assert items[..i + 1] == items[..i] + [t];
        assert t in ActiveSlas(d, ws) && t !in items[..i];
        if InWorkspace(db.rows.desk, ws, t) {
          if fault == Some(Turning(i)) {
            RefreshSlaFromHistory(ws, t);
            return Failure(Crashed);
          }
          counts := Turn(ws, t, now, counts, d, done);
          done := done + {t};
        }
      }
      assert items[..|items|] == items;
      assert done == Swept(d, ws);
      r := Success(counts);
    }

    // When an exception escapes, the session holds rows half way through, and only a rollback brings it
    // back to what was committed.
    method EvaluateSla(ws: WorkspaceId, now: int, fault: Option<Fault>) returns (r: Result<Counts, Error>)
      modifies db
      ensures fault.None? ==> r.Success?
      ensures r.Success? ==> db.rows == db.committed == Evaluate(old(db.rows), ws, now)
      ensures r.Success? ==> r.value == EvaluationCounts(old(db.rows), ws, now)
      ensures r.Failure? ==> db.committed == old(db.committed)
    {
      var attached := MaterializeWorkspaceSlas(ws, fault);
      if attached.Fail? {
        return Failure(attached.error);
      }
      var items := Listing(ActiveSlas(db.rows, ws));
      r := SweepItems(ws, now, items, fault);
      if fault == Some(Committing) {
        return Failure(Crashed);
      }
      if r.Success? {
        db.Commit();
      }
    }
  }
}
