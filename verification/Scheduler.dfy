/** The scheduler's sweep over all workspaces, apps/api/app/workers/sla_scheduler.py. */
module Scheduler {
  import opened Wrappers
  import opened Store
  import opened SlaClock
  import opened SlaHistory
  import opened Lifecycle
  import opened History
  import opened Operations

  // Every SLA row belongs to a ticket, in its workspace, under one of the workspace's own policies.
  predicate Owned(db: Db) {
    forall t :: t in db.slas ==>
      InWorkspace(db.desk, db.slas[t].workspace, t) && db.slas[t].policy.workspace == db.slas[t].workspace
  }

  lemma ReachableIsOwned(steps: seq<Step>, now: int)
    requires UpTo(steps, now)
    ensures Owned(Run(steps))
  {
    ReachableIsClocked(steps, now);
  }

  // The two sets of rows hold the same about workspace ws.
  ghost predicate SameIn(ws: WorkspaceId, db: Db, e: Db) {
    && e.desk == db.desk
    && (forall t :: InWorkspace(db.desk, ws, t) ==>
          (t in e.slas <==> t in db.slas) && (t in db.slas ==> e.slas[t] == db.slas[t]))
    && (forall k :: k in e.policies && k.workspace == ws ==> k in db.policies)
    && (forall k :: k in db.policies && k.workspace == ws ==> k in e.policies && e.policies[k] == db.policies[k])
    && (forall n: Notification :: n.workspace == ws ==> e.notifications[n] == db.notifications[n])
  }

  // ---- a sweep stays within its workspace -------------------------------------------------------

  lemma AttachElsewhere(db: Db, a: WorkspaceId, b: WorkspaceId)
    requires a != b
    ensures SameIn(b, db, Materialize(db, a))
  {
  }

  lemma SweepElsewhere(d: Db, a: WorkspaceId, b: WorkspaceId, now: int)
    requires a != b
    ensures SameIn(b, d, SweepAll(d, Swept(d, a), now))
  {
    hide Evaluated;
    var alerts := Alerts(d, Swept(d, a), now);
    forall n | n in alerts
      ensures n.workspace == a
    {
    }
  }

  lemma EvaluateElsewhere(db: Db, a: WorkspaceId, b: WorkspaceId, now: int)
    requires a != b
    ensures SameIn(b, db, Evaluate(db, a, now))
  {
    AttachElsewhere(db, a, b);
    SweepElsewhere(Materialize(db, a), a, b, now);
    hide Evaluated, Alerts, Swept, Materialize;
  }

  lemma EvaluateKeepsOwned(db: Db, ws: WorkspaceId, now: int)
    requires Owned(db)
    ensures Owned(Evaluate(db, ws, now))
  {
    hide FirstOutboundAt, FirstResolvedAt;
  }

  // ---- and depends on nothing else --------------------------------------------------------------

  lemma FreshSlaSame(db: Db, e: Db, ws: WorkspaceId, t: TicketId)
    requires SameIn(ws, db, e) && InWorkspace(db.desk, ws, t)
    ensures FreshSla(db, t) == FreshSla(e, t)
  {
  }

  lemma PoliciesSame(db: Db, e: Db, ws: WorkspaceId, keys: set<PolicyKey>)
    requires SameIn(ws, db, e)
    ensures var p, q := WithDefaults(db.policies, keys), WithDefaults(e.policies, keys);
            && (forall k :: k in q && k.workspace == ws ==> k in p)
            && (forall k :: k in p && k.workspace == ws ==> k in q && q[k] == p[k])
  {
  }

  lemma WithoutSlaSame(db: Db, e: Db, ws: WorkspaceId)
    requires SameIn(ws, db, e)
    ensures WithoutSla(db, ws) == WithoutSla(e, ws)
    ensures KeysOf(db, WithoutSla(db, ws)) == KeysOf(e, WithoutSla(e, ws))
  {
    forall t | InWorkspace(db.desk, ws, t)
      ensures t in WithoutSla(db, ws) <==> t in WithoutSla(e, ws)
    {
    }
    assert WithoutSla(db, ws) == WithoutSla(e, ws);
  }

  lemma AttachedSame(db: Db, e: Db, ws: WorkspaceId, ts: set<TicketId>, t: TicketId)
    requires SameIn(ws, db, e) && InWorkspace(db.desk, ws, t) && ts <= db.desk.tickets.Keys
    ensures t in Attach(e, ts).slas <==> t in Attach(db, ts).slas
    ensures t in Attach(db, ts).slas ==> Attach(e, ts).slas[t] == Attach(db, ts).slas[t]
  {
    FreshSlaSame(db, e, ws, t);
    hide FreshSla, KeysOf, WithDefaults;
  }

  lemma MaterializeSame(db: Db, e: Db, ws: WorkspaceId)
    requires SameIn(ws, db, e)
    ensures SameIn(ws, Materialize(db, ws), Materialize(e, ws))
  {
    hide FreshSla, KeysOf, WithDefaults;
    var ts := WithoutSla(db, ws);
    WithoutSlaSame(db, e, ws);
    hide WithoutSla;
    PoliciesSame(db, e, ws, KeysOf(db, ts));
    var a, b := Materialize(db, ws), Materialize(e, ws);
    assert a.policies == WithDefaults(db.policies, KeysOf(db, ts));
    assert b.policies == WithDefaults(e.policies, KeysOf(db, ts));
    forall t | InWorkspace(db.desk, ws, t)
      ensures (t in b.slas <==> t in a.slas) && (t in a.slas ==> b.slas[t] == a.slas[t])
    {
      AttachedSame(db, e, ws, ts, t);
    }
    hide Attach, Materialize, InWorkspace;
  }

  lemma EvaluatedSame(d: Db, e: Db, ws: WorkspaceId, t: TicketId, now: int)
    requires SameIn(ws, d, e) && Owned(d) && t in d.slas && d.slas[t].workspace == ws
    ensures t in e.slas && Evaluated(d, t, now) == Evaluated(e, t, now)
    ensures t in d.desk.tickets && forall o :: Alert(d, t, now, o) == Alert(e, t, now, o)
  {
    hide FirstOutboundAt, FirstResolvedAt;
  }

  lemma SweepSame(d: Db, e: Db, ws: WorkspaceId, now: int)
    requires SameIn(ws, d, e) && Owned(d) && Owned(e)
    ensures Swept(d, ws) == Swept(e, ws)
    ensures Alerts(d, Swept(d, ws), now) == Alerts(e, Swept(e, ws), now)
    ensures SameIn(ws, SweepAll(d, Swept(d, ws), now), SweepAll(e, Swept(e, ws), now))
  {
    assert Swept(d, ws) == Swept(e, ws);
    var ts := Swept(d, ws);
    forall t | t in ts
      ensures Evaluated(d, t, now) == Evaluated(e, t, now) && forall o :: Alert(d, t, now, o) == Alert(e, t, now, o)
    {
      EvaluatedSame(d, e, ws, t, now);
    }
    hide Evaluated, Alert;
    assert Alerts(d, ts, now) == Alerts(e, ts, now);
    SweepAllSame(d, e, ws, ts, now);
  }

  lemma SweepAllSame(d: Db, e: Db, ws: WorkspaceId, ts: set<TicketId>, now: int)
    requires SameIn(ws, d, e)
    requires ts <= d.slas.Keys && ts <= e.slas.Keys && ts <= d.desk.tickets.Keys
    requires Alerts(d, ts, now) == Alerts(e, ts, now)
    requires forall t :: t in ts ==> Evaluated(d, t, now) == Evaluated(e, t, now)
    ensures SameIn(ws, SweepAll(d, ts, now), SweepAll(e, ts, now))
  {
    hide Evaluated, Alerts;
  }

  lemma EvaluateSame(db: Db, e: Db, ws: WorkspaceId, now: int)
    requires SameIn(ws, db, e) && Owned(db) && Owned(e)
    ensures SameIn(ws, Evaluate(db, ws, now), Evaluate(e, ws, now))
    ensures EvaluationCounts(db, ws, now) == EvaluationCounts(e, ws, now)
  {
    MaterializeSame(db, e, ws);
    MaterializeOwned(db, ws);
    MaterializeOwned(e, ws);
    SweepSame(Materialize(db, ws), Materialize(e, ws), ws, now);
    hide Alerts, Materialize, Swept, SweepAll;
  }

  lemma MaterializeOwned(db: Db, ws: WorkspaceId)
    requires Owned(db)
    ensures Owned(Materialize(db, ws))
  {
  }

  // ---- all workspaces ---------------------------------------------------------------------------

  // The rows after the loop has evaluated, in that order, the workspaces that do not fail.
  function SweepWorkspaces(db: Db, order: seq<WorkspaceId>, at: map<WorkspaceId, int>, failing: set<WorkspaceId>): Db
    requires forall ws :: ws in order ==> ws in at
    decreases |order|
  {
    if order == [] then db
    else
      var ws := order[0];
      SweepWorkspaces(if ws in failing then db else Evaluate(db, ws, at[ws]), order[1..], at, failing)
  }

  predicate Distinct(order: seq<WorkspaceId>) {
    forall i, j :: 0 <= i < j < |order| ==> order[i] != order[j]
  }

  function Add(a: Counts, b: Counts): Counts {
    Counts(a.evaluated + b.evaluated, a.warnings + b.warnings, a.breaches + b.breaches)
  }

  // The sum of what evaluating each non-failing workspace on its own would count.
  function TotalAlone(db: Db, order: seq<WorkspaceId>, at: map<WorkspaceId, int>, failing: set<WorkspaceId>): Counts
    requires forall ws :: ws in order ==> ws in at
    decreases |order|
  {
    if order == [] then Counts(0, 0, 0)
    else
      var first, rest := CountsAlone(db, order[0], at, failing), TotalAlone(db, order[1..], at, failing);
      Counts(first.evaluated + rest.evaluated, first.warnings + rest.warnings, first.breaches + rest.breaches)
  }

  function CountsAlone(db: Db, ws: WorkspaceId, at: map<WorkspaceId, int>, failing: set<WorkspaceId>): Counts
    requires ws in at
  {
    if ws in failing then Counts(0, 0, 0) else EvaluationCounts(db, ws, at[ws])
  }

  // What workspace ws should look like in the end.
  function Alone(db: Db, ws: WorkspaceId, order: seq<WorkspaceId>, at: map<WorkspaceId, int>,
                 failing: set<WorkspaceId>): Db
    requires forall ws :: ws in order ==> ws in at
  {
    if ws in order && ws !in failing then Evaluate(db, ws, at[ws]) else db
  }

  lemma SameInChain(ws: WorkspaceId, a: Db, b: Db, c: Db)
    requires SameIn(ws, a, b) && SameIn(ws, b, c)
    ensures SameIn(ws, a, c)
  {
  }

  /** Each workspace ends up exactly as evaluating it alone would leave it, and a failing or unlisted one
      exactly as it was, whatever happens to the others. */
  lemma {:induction false} WorkspacesAreIsolated(db: Db, order: seq<WorkspaceId>, at: map<WorkspaceId, int>,
                                                 failing: set<WorkspaceId>, ws: WorkspaceId)
    requires Owned(db) && Distinct(order)
    requires forall ws :: ws in order ==> ws in at
    ensures Owned(SweepWorkspaces(db, order, at, failing))
    ensures SameIn(ws, Alone(db, ws, order, at, failing), SweepWorkspaces(db, order, at, failing))
    decreases |order|
  {
    if order != [] {
      var first, rest := order[0], order[1..];
      assert forall w :: w in order <==> w == first || w in rest;
      var next := if first in failing then db else Evaluate(db, first, at[first]);
      if first !in failing {
        EvaluateKeepsOwned(db, first, at[first]);
      }
      WorkspacesAreIsolated(next, rest, at, failing, ws);
      hide Evaluate, SameIn;
      assert SameIn(ws, db, db) by { SameInItself(ws, db); }
      if first !in failing && ws != first {
        EvaluateElsewhere(db, first, ws, at[first]);
        if ws in rest && ws !in failing {
          EvaluateSame(db, next, ws, at[ws]);
        }
        SameInChain(ws, Alone(db, ws, order, at, failing), Alone(next, ws, rest, at, failing),
                    SweepWorkspaces(next, rest, at, failing));
      }
    }
  }

  lemma SameInItself(ws: WorkspaceId, db: Db)
    ensures SameIn(ws, db, db)
  {
  }

  // The totals the loop adds up as it goes.
  function RunningTotal(db: Db, order: seq<WorkspaceId>, at: map<WorkspaceId, int>, failing: set<WorkspaceId>): Counts
    requires forall ws :: ws in order ==> ws in at
    decreases |order|
  {
    if order == [] then Counts(0, 0, 0)
    else
      var ws := order[0];
      if ws in failing then RunningTotal(db, order[1..], at, failing)
      else Add(EvaluationCounts(db, ws, at[ws]), RunningTotal(Evaluate(db, ws, at[ws]), order[1..], at, failing))
  }

  lemma {:induction false} TotalAloneSame(db: Db, e: Db, order: seq<WorkspaceId>, at: map<WorkspaceId, int>,
                                          failing: set<WorkspaceId>)
    requires Owned(db) && Owned(e)
    requires forall ws :: ws in order ==> ws in at && SameIn(ws, db, e)
    ensures TotalAlone(db, order, at, failing) == TotalAlone(e, order, at, failing)
    decreases |order|
  {
    if order != [] {
      assert order[0] in order;
      TotalAloneSame(db, e, order[1..], at, failing);
      EvaluateSame(db, e, order[0], at[order[0]]);
      hide EvaluationCounts;
    }
  }

  lemma TotalAloneStep(db: Db, order: seq<WorkspaceId>, at: map<WorkspaceId, int>, failing: set<WorkspaceId>)
    requires order != [] && forall ws :: ws in order ==> ws in at
    ensures TotalAlone(db, order, at, failing)
            == Add(CountsAlone(db, order[0], at, failing), TotalAlone(db, order[1..], at, failing))
  {
    hide CountsAlone;
  }

  /** The totals are the sums of what the non-failing workspaces would count on their own. */
  lemma {:induction false} TotalsAreSums(db: Db, order: seq<WorkspaceId>, at: map<WorkspaceId, int>,
                                         failing: set<WorkspaceId>)
    requires Owned(db) && Distinct(order)
    requires forall ws :: ws in order ==> ws in at
    ensures RunningTotal(db, order, at, failing) == TotalAlone(db, order, at, failing)
    decreases |order|
  {
    if order != [] {
      var first, rest := order[0], order[1..];
      TotalAloneStep(db, order, at, failing);
      hide TotalAlone;
      if first in failing {
        TotalsAreSums(db, rest, at, failing);
      } else {
        var next := Evaluate(db, first, at[first]);
        EvaluateKeepsOwned(db, first, at[first]);
        TotalsAreSums(next, rest, at, failing);
        forall ws | ws in rest
          ensures SameIn(ws, db, next)
        {
          EvaluateElsewhere(db, first, ws, at[first]);
        }
        hide EvaluationCounts, Evaluate;
        TotalAloneSame(db, next, rest, at, failing);
      }
    }
  }

  lemma {:induction false} TakeOut(db: Db, order: seq<WorkspaceId>, k: nat, at: map<WorkspaceId, int>,
                                   failing: set<WorkspaceId>)
    requires k < |order|
    requires forall ws :: ws in order ==> ws in at
    ensures var rest := order[..k] + order[k + 1..];
            && (forall ws :: ws in rest ==> ws in at)
            && TotalAlone(db, order, at, failing) == TotalAlone(db, [order[k]] + rest, at, failing)
    decreases k
  {
    hide CountsAlone;
    var rest := order[..k] + order[k + 1..];
    assert ([order[k]] + rest)[1..] == rest;
    if k == 0 {
      assert [order[0]] + rest == order;
    } else {
      TakeOut(db, order[1..], k - 1, at, failing);
      var rest' := order[1..][..k - 1] + order[1..][k..];
      assert rest == [order[0]] + rest';
      assert rest[1..] == rest' && ([order[k]] + rest')[1..] == rest';
      assert order[1..][k - 1] == order[k];
    }
  }

  lemma DistinctWithout(b: seq<WorkspaceId>, k: nat)
    requires Distinct(b) && k < |b|
    ensures Distinct(b[..k] + b[k + 1..]) && b[k] !in b[..k] + b[k + 1..]
  {
    var rest := b[..k] + b[k + 1..];
    assert forall i :: 0 <= i < |rest| ==> rest[i] == if i < k then b[i] else b[i + 1];
  }

  // The two listings hold the same workspaces, each once.
  ghost predicate SameWorkspaces(a: seq<WorkspaceId>, b: seq<WorkspaceId>) {
    Distinct(a) && Distinct(b) && (forall ws :: ws in a <==> ws in b)
  }

  lemma {:induction false} TotalsIgnoreOrder(db: Db, a: seq<WorkspaceId>, b: seq<WorkspaceId>,
                                             at: map<WorkspaceId, int>, failing: set<WorkspaceId>)
    requires SameWorkspaces(a, b) && forall ws :: ws in a ==> ws in at
    ensures TotalAlone(db, a, at, failing) == TotalAlone(db, b, at, failing)
    decreases |a|
  {
    hide CountsAlone;
    assert forall i :: 0 <= i < |b| ==> b[i] in a;
    if a != [] {
      assert a[0] in b;
      var k :| 0 <= k < |b| && b[k] == a[0];
      var rest := b[..k] + b[k + 1..];
      TakeOut(db, b, k, at, failing);
      assert ([b[k]] + rest)[1..] == rest;
      forall ws
        ensures ws in a[1..] <==> ws in rest
      {
        assert ws in a <==> ws == a[0] || ws in a[1..];
        assert ws in b <==> ws == b[k] || ws in rest;
      }
      DistinctWithout(b, k);
      TotalsIgnoreOrder(db, a[1..], rest, at, failing);
    }
  }

  lemma SameEverywhere(x: Db, y: Db)
    requires Owned(x) && Owned(y)
    requires forall ws :: SameIn(ws, x, y)
    ensures x == y
  {
    assert SameIn(0, x, y);
    assert x.slas == y.slas by {
      forall t | t in x.slas || t in y.slas
        ensures t in x.slas && t in y.slas && x.slas[t] == y.slas[t]
      {
        var ws := x.desk.tickets[t].workspace;
        assert SameIn(ws, x, y) && InWorkspace(x.desk, ws, t);
      }
    }
    assert x.policies == y.policies by {
      forall k | k in x.policies || k in y.policies
        ensures k in x.policies && k in y.policies && x.policies[k] == y.policies[k]
      {
        assert SameIn(k.workspace, x, y);
      }
    }
    assert x.notifications == y.notifications by {
      forall n: Notification
        ensures x.notifications[n] == y.notifications[n]
      {
        assert SameIn(n.workspace, x, y);
      }
    }
  }

  /** The order of the workspaces does not matter, neither to the rows nor to the totals. */
  lemma OrderIsIrrelevant(db: Db, a: seq<WorkspaceId>, b: seq<WorkspaceId>, at: map<WorkspaceId, int>,
                          failing: set<WorkspaceId>)
    requires Owned(db)
    requires SameWorkspaces(a, b) && forall ws :: ws in a ==> ws in at
    ensures SweepWorkspaces(db, a, at, failing) == SweepWorkspaces(db, b, at, failing)
    ensures RunningTotal(db, a, at, failing) == RunningTotal(db, b, at, failing)
  {
    TotalsAreSums(db, a, at, failing);
    TotalsAreSums(db, b, at, failing);
    TotalsIgnoreOrder(db, a, b, at, failing);
    var x, y := SweepWorkspaces(db, a, at, failing), SweepWorkspaces(db, b, at, failing);
    WorkspacesAreIsolated(db, a, at, failing, 0);
    WorkspacesAreIsolated(db, b, at, failing, 0);
    forall ws
      ensures SameIn(ws, x, y)
    {
      WorkspacesAreIsolated(db, a, at, failing, ws);
      WorkspacesAreIsolated(db, b, at, failing, ws);
      SameFromCommon(ws, Alone(db, ws, a, at, failing), x, y);
    }
    SameEverywhere(x, y);
  }

  lemma SameFromCommon(ws: WorkspaceId, base: Db, x: Db, y: Db)
    requires SameIn(ws, base, x) && SameIn(ws, base, y)
    ensures SameIn(ws, x, y)
  {
  }

  // ---- in every reachable state -----------------------------------------------------------------

  // The loop as steps of a run: a tick for each workspace that does not fail.
  function Ticks(order: seq<WorkspaceId>, at: map<WorkspaceId, int>, failing: set<WorkspaceId>): seq<Step>
    requires forall ws :: ws in order ==> ws in at
    decreases |order|
  {
    if order == [] then []
    else (if order[0] in failing then [] else [Tick(order[0], at[order[0]])]) + Ticks(order[1..], at, failing)
  }

  lemma {:induction false} SweepIsTicks(steps: seq<Step>, order: seq<WorkspaceId>, at: map<WorkspaceId, int>,
                                        failing: set<WorkspaceId>)
    requires forall ws :: ws in order ==> ws in at
    ensures SweepWorkspaces(Run(steps), order, at, failing) == Run(steps + Ticks(order, at, failing))
    decreases |order|
  {
    hide Run, Evaluate;
    if order == [] {
      assert steps + [] == steps;
    } else if order[0] in failing {
      SweepIsTicks(steps, order[1..], at, failing);
      assert [] + Ticks(order[1..], at, failing) == Ticks(order[1..], at, failing);
    } else {
      var tick := Tick(order[0], at[order[0]]);
      RunThenTick(steps, order[0], at[order[0]]);
      SweepIsTicks(steps + [tick], order[1..], at, failing);
      assert (steps + [tick]) + Ticks(order[1..], at, failing) == steps + ([tick] + Ticks(order[1..], at, failing));
    }
  }

  /** In every reachable state the loop is a run of ticks, one for each workspace that does not fail; each
      workspace ends as evaluated alone, the totals are the sums, and another order does the same. */
  lemma ReachableWorkspacesAreIsolated(steps: seq<Step>, now: int, order: seq<WorkspaceId>, other: seq<WorkspaceId>,
                                       at: map<WorkspaceId, int>, failing: set<WorkspaceId>, ws: WorkspaceId)
    requires UpTo(steps, now) && SameWorkspaces(order, other) && forall ws :: ws in order ==> ws in at
    ensures var db := Run(steps);
            var swept := SweepWorkspaces(db, order, at, failing);
            && swept == Run(steps + Ticks(order, at, failing)) == SweepWorkspaces(db, other, at, failing)
            && SameIn(ws, Alone(db, ws, order, at, failing), swept)
            && RunningTotal(db, order, at, failing) == RunningTotal(db, other, at, failing)
               == TotalAlone(db, order, at, failing)
  {
    hide *;
    ReachableIsOwned(steps, now);
    SweepIsTicks(steps, order, at, failing);
    assert Distinct(order) by { SameWorkspacesAreDistinct(order, other); }
    WorkspacesAreIsolated(Run(steps), order, at, failing, ws);
    TotalsAreSums(Run(steps), order, at, failing);
    OrderIsIrrelevant(Run(steps), order, other, at, failing);
  }

  lemma SameWorkspacesAreDistinct(a: seq<WorkspaceId>, b: seq<WorkspaceId>)
    requires SameWorkspaces(a, b)
    ensures Distinct(a) && forall ws :: ws in a <==> ws in b
  {
  }

  // ---- the loop ---------------------------------------------------------------------------------

  lemma NoWorkspaceYet(db: Db, at: map<WorkspaceId, int>)
    ensures SweepWorkspaces(db, [], at, {}) == db && RunningTotal(db, [], at, {}) == Counts(0, 0, 0)
  {
  }

  lemma DistinctGrows(order: seq<WorkspaceId>)
    requires Distinct(order)
    ensures forall i :: 0 <= i < |order| ==> order[i] !in order[..i] && order[..i + 1] == order[..i] + [order[i]]
  {
  }

  // One more turn of the loop, with or without an exception.
  lemma {:induction false} OneMoreWorkspace(db: Db, done: seq<WorkspaceId>, ws: WorkspaceId,
                                             at: map<WorkspaceId, int>, failed: set<WorkspaceId>)
    requires ws !in done && ws !in failed && ws in at
    requires forall w :: w in done ==> w in at
    ensures var d := SweepWorkspaces(db, done, at, failed);
            && SweepWorkspaces(db, done + [ws], at, failed) == Evaluate(d, ws, at[ws])
            && SweepWorkspaces(db, done + [ws], at, failed + {ws}) == d
            && RunningTotal(db, done + [ws], at, failed)
               == Add(RunningTotal(db, done, at, failed), EvaluationCounts(d, ws, at[ws]))
            && RunningTotal(db, done + [ws], at, failed + {ws}) == RunningTotal(db, done, at, failed)
    decreases |done|
  {
    hide Evaluate, EvaluationCounts;
    assert (done + [ws])[1..] == if done == [] then [] else done[1..] + [ws];
    if done != [] {
      OneMoreWorkspace(if done[0] in failed then db else Evaluate(db, done[0], at[done[0]]), done[1..], ws, at, failed);
    }
  }

  /** evaluate_all_workspaces: an exception in one workspace rolls the session back to the last commit and
      the loop goes on. at gives the instant at which each workspace is evaluated, faults the workspaces
      whose evaluation may raise, and where it does. */
  method EvaluateAllWorkspaces(service: OperationsService, order: seq<WorkspaceId>, at: map<WorkspaceId, int>,
                               faults: map<WorkspaceId, Fault>)
    returns (workspaces: nat, total: Counts, failed: set<WorkspaceId>)
    requires service.db.committed == service.db.rows
    requires Distinct(order) && forall ws :: ws in order ==> ws in at
    modifies service.db
    ensures workspaces == |order| && failed <= faults.Keys
    ensures service.db.rows == service.db.committed == SweepWorkspaces(old(service.db.rows), order, at, failed)
    ensures total == RunningTotal(old(service.db.rows), order, at, failed)
  {
    hide SweepWorkspaces, RunningTotal, Evaluate, EvaluationCounts, Distinct;
    workspaces, total, failed := |order|, Counts(0, 0, 0), {};
    NoWorkspaceYet(service.db.rows, at);
    DistinctGrows(order);
    for i := 0 to |order|
      invariant service.db.rows == service.db.committed
      invariant failed <= faults.Keys && forall ws :: ws in failed ==> ws in order[..i]
      invariant service.db.rows == SweepWorkspaces(old(service.db.rows), order[..i], at, failed)
      invariant total == RunningTotal(old(service.db.rows), order[..i], at, failed)
    {
      var ws := order[i];
      var fault := if ws in faults then Some(faults[ws]) else None;
      var r := service.EvaluateSla(ws, at[ws], fault);
      OneMoreWorkspace(old(service.db.rows), order[..i], ws, at, failed);
      if r.Success? {
        total := Add(total, r.value);
      } else {
        service.db.Rollback();
        failed := failed + {ws};
      }
    }
    assert order[..|order|] == order;
  }
}
