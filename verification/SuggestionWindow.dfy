/** The AI rate limit of apps/api/app/services/knowledge_service.py: a workspace's suggestions of the last
    sixty seconds are counted before the model is called, and the new one is stored after the call. */
module SuggestionWindow {
  import opened Finite
  import opened Wrappers
  import opened Store

  const WINDOW: int := 60_000_000

  const ALLOWED_KINDS: set<string> := {"reply", "summary", "next_steps"}

  datatype Suggestion = Suggestion(workspace: WorkspaceId, at: int)

  // count_recent_for_workspace: no upper end, and the lower end is included.
  function Recent(rows: seq<Suggestion>, ws: WorkspaceId, now: int): nat {
    if rows == [] then 0
    else
      Recent(rows[..|rows| - 1], ws, now)
      + if rows[|rows| - 1].workspace == ws && rows[|rows| - 1].at >= now - WINDOW then 1 else 0
  }

  // The model's answer is its outcome: a text, or whatever the gateway raised.
  function AfterSuggest(desk: Desk, limit: int, rows: seq<Suggestion>, ws: WorkspaceId, t: TicketId, kind: string,
                        checked: int, answer: Option<string>, written: int): Result<seq<Suggestion>, Error>
  {
    if kind !in ALLOWED_KINDS then Failure(Invalid)
    else if !InWorkspace(desk, ws, t) then Failure(NotFound)
    else if Recent(rows, ws, checked) >= limit then Failure(Invalid)
    else if answer.None? then Failure(Invalid)
    else Success(rows + [Suggestion(ws, written)])
  }

  class AIAssistService {
    const desk: Desk
    const requestsPerMinute: int
    var rows: seq<Suggestion>

    constructor (desk: Desk, requestsPerMinute: int)
      ensures this.desk == desk && this.requestsPerMinute == requestsPerMinute && rows == []
    {
      this.desk, this.requestsPerMinute, rows := desk, requestsPerMinute, [];
    }

    method Suggest(ws: WorkspaceId, t: TicketId, kind: string, checked: int, answer: Option<string>, written: int)
      returns (r: Outcome<Error>)
      modifies this
      ensures var spec := AfterSuggest(desk, requestsPerMinute, old(rows), ws, t, kind, checked, answer, written);
              && r == OutcomeOf(spec)
              && rows == match spec case Success(s) => s case Failure(_) => old(rows)
    {
      if kind !in ALLOWED_KINDS {
        return Fail(Invalid);
      }
      if !InWorkspace(desk, ws, t) {
        return Fail(NotFound);
      }
      var recent := Recent(rows, ws, checked);
      if recent >= requestsPerMinute {
        return Fail(Invalid);
      }
      if answer.None? {
        return Fail(Invalid);
      }
      rows := rows + [Suggestion(ws, written)];
      r := Pass;
    }
  }

  // The rows of a workspace from x up to and including sixty seconds later.
  function Within(rows: seq<Suggestion>, ws: WorkspaceId, x: int): nat {
    if rows == [] then 0
    else
      Within(rows[..|rows| - 1], ws, x)
      + if rows[|rows| - 1].workspace == ws && x <= rows[|rows| - 1].at <= x + 60_000_000 then 1 else 0
  }

  // ---- several workers, each in at most one call -------------------------------------------------

  datatype Call = Call(workspace: WorkspaceId, checkedAt: int)
  datatype World = World(rows: seq<Suggestion>, open: map<nat, Call>)

  // A row gets its time when it is written and shows when its transaction commits.
  datatype Event = Checks(worker: nat, workspace: WorkspaceId, at: int)
                 | Commits(worker: nat, written: int, at: int)
                 | Drops(worker: nat, at: int)

  predicate Possible(n: nat, w: World, e: Event) {
    match e
    case Checks(k, _, _) => k < n && k !in w.open
    case Commits(k, written, at) => k in w.open && w.open[k].checkedAt <= written <= at
    case Drops(k, _) => k in w.open
  }

  function Next(limit: int, n: nat, w: World, e: Event): World
    requires Possible(n, w, e)
  {
    match e
    case Checks(k, ws, at) =>
      if Recent(w.rows, ws, at) >= limit then w else w.(open := w.open[k := Call(ws, at)])
    case Commits(k, written, _) => World(w.rows + [Suggestion(w.open[k].workspace, written)], w.open - {k})
    case Drops(k, _) => w.(open := w.open - {k})
  }

  predicate Legal(limit: int, n: nat, w: World, now: int, es: seq<Event>)
    decreases |es|
  {
    || es == []
    || (now <= es[0].at && Possible(n, w, es[0]) && Legal(limit, n, Next(limit, n, w, es[0]), es[0].at, es[1..]))
  }

  function Run(limit: int, n: nat, w: World, now: int, es: seq<Event>): World
    requires Legal(limit, n, w, now, es)
    decreases |es|
  {
    if es == [] then w else Run(limit, n, Next(limit, n, w, es[0]), es[0].at, es[1..])
  }

  // The calls that can still add a row to the window that begins at x.
  function Pending(w: World, ws: WorkspaceId, x: int): set<nat> {
    set k | k in w.open && w.open[k].workspace == ws && w.open[k].checkedAt <= x + WINDOW
  }

  predicate Past(n: nat, w: World, now: int) {
    && (forall i :: 0 <= i < |w.rows| ==> w.rows[i].at <= now)
    && (forall k :: k in w.open ==> k < n && w.open[k].checkedAt <= now)
  }

  predicate Bounded(limit: int, n: nat, w: World, ws: WorkspaceId, x: int) {
    var load := Within(w.rows, ws, x) + |Pending(w, ws, x)|;
    load == 0 || (limit > 0 && load <= limit - 1 + n)
  }

  lemma {:induction false} RecentCoversWindow(rows: seq<Suggestion>, ws: WorkspaceId, x: int, now: int)
    requires now <= x + WINDOW
    ensures Within(rows, ws, x) <= Recent(rows, ws, now)
  {
    if rows != [] {
      RecentCoversWindow(rows[..|rows| - 1], ws, x, now);
    }
  }

  lemma CheckKeepsBound(limit: int, n: nat, w: World, now: int, e: Event, ws: WorkspaceId, x: int)
    requires Past(n, w, now) && now <= e.at && Possible(n, w, e) && Bounded(limit, n, w, ws, x) && e.Checks?
    ensures Bounded(limit, n, Next(limit, n, w, e), ws, x)
  {
    var v := Next(limit, n, w, e);
    AtMostSoMany(n, Pending(v, ws, x));
    RecentCoversWindow(w.rows, ws, if e.at <= x + WINDOW then x else e.at - WINDOW, e.at);
    hide Recent, Within;
    assert !(e.at <= x + WINDOW && e.workspace == ws) ==> Pending(v, ws, x) == Pending(w, ws, x);
  }

  lemma EndKeepsBound(limit: int, n: nat, w: World, now: int, e: Event, ws: WorkspaceId, x: int)
    requires Past(n, w, now) && now <= e.at && Possible(n, w, e) && Bounded(limit, n, w, ws, x) && !e.Checks?
    ensures Bounded(limit, n, Next(limit, n, w, e), ws, x)
  {
    var v := Next(limit, n, w, e);
    assert Pending(v, ws, x) == Pending(w, ws, x) - {e.worker};
    if e.Commits? {
      assert v.rows[..|v.rows| - 1] == w.rows;
    }
  }

  lemma StepKeepsBound(limit: int, n: nat, w: World, now: int, e: Event, ws: WorkspaceId, x: int)
    requires Past(n, w, now) && now <= e.at && Possible(n, w, e) && Bounded(limit, n, w, ws, x)
    ensures Past(n, Next(limit, n, w, e), e.at) && Bounded(limit, n, Next(limit, n, w, e), ws, x)
  {
    hide Bounded, Recent;
    if e.Checks? {
      CheckKeepsBound(limit, n, w, now, e, ws, x);
    } else {
      EndKeepsBound(limit, n, w, now, e, ws, x);
    }
  }

  lemma {:induction false} RunKeepsBound(limit: int, n: nat, w: World, now: int, es: seq<Event>, ws: WorkspaceId,
                                         x: int)
    requires Past(n, w, now) && Legal(limit, n, w, now, es) && Bounded(limit, n, w, ws, x)
    ensures Bounded(limit, n, Run(limit, n, w, now, es), ws, x)
    decreases |es|
  {
    if es != [] {
      StepKeepsBound(limit, n, w, now, es[0], ws, x);
      RunKeepsBound(limit, n, Next(limit, n, w, es[0]), es[0].at, es[1..], ws, x);
    }
  }

  const NOTHING: World := World([], map[])

  /** However long the model calls take, no sixty seconds hold more than limit + n - 1 suggestions of a
      workspace that n workers stored; one worker at a time, no more than the limit. */
  lemma SuggestionsPerMinute(limit: int, n: nat, now: int, es: seq<Event>, ws: WorkspaceId, x: int)
    requires Legal(limit, n, NOTHING, now, es)
    ensures var stored := Within(Run(limit, n, NOTHING, now, es).rows, ws, x);
            if limit <= 0 then stored == 0 else stored <= limit - 1 + n
  {
    RunKeepsBound(limit, n, NOTHING, now, es, ws, x);
  }

  lemma {:induction false} RunIsPast(limit: int, n: nat, w: World, now: int, es: seq<Event>, end: int)
    requires Past(n, w, now) && Legal(limit, n, w, now, es)
    requires now <= end && forall e :: e in es ==> e.at <= end
    ensures Past(n, Run(limit, n, w, now, es), end)
    decreases |es|
  {
    if es != [] {
      assert Past(n, Next(limit, n, w, es[0]), es[0].at);
      RunIsPast(limit, n, Next(limit, n, w, es[0]), es[0].at, es[1..], end);
    }
  }

  lemma {:induction false} RecentIsWindow(rows: seq<Suggestion>, ws: WorkspaceId, now: int)
    requires forall i :: 0 <= i < |rows| ==> rows[i].at <= now
    ensures Recent(rows, ws, now) == Within(rows, ws, now - 60_000_000)
  {
    if rows != [] {
      RecentIsWindow(rows[..|rows| - 1], ws, now);
    }
  }

  /** In every run, a check is refused exactly when the sixty seconds up to it already hold the limit, of
      this workspace's suggestions alone. */
  lemma RefusedExactlyWhenFull(limit: int, n: nat, now: int, es: seq<Event>, worker: nat, ws: WorkspaceId, at: int)
    requires Legal(limit, n, NOTHING, now, es) && now <= at && forall e :: e in es ==> e.at <= at
    requires Possible(n, Run(limit, n, NOTHING, now, es), Checks(worker, ws, at))
    ensures var w := Run(limit, n, NOTHING, now, es);
            worker !in Next(limit, n, w, Checks(worker, ws, at)).open <==> Within(w.rows, ws, at - 60_000_000) >= limit
  {
    RunIsPast(limit, n, NOTHING, now, es, at);
    RecentIsWindow(Run(limit, n, NOTHING, now, es).rows, ws, at);
  }

  /** A call stores a suggestion exactly when it asks for a reply, a summary or next steps on a ticket of the
      workspace, the sixty seconds up to its check hold fewer than the limit, and the model answers. */
  lemma SuggestsIff(desk: Desk, limit: int, rows: seq<Suggestion>, ws: WorkspaceId, t: TicketId, kind: string,
                    checked: int, answer: Option<string>, written: int)
    requires forall i :: 0 <= i < |rows| ==> rows[i].at <= checked
    ensures var spec := AfterSuggest(desk, limit, rows, ws, t, kind, checked, answer, written);
            && (spec.Success? <==> (kind == "reply" || kind == "summary" || kind == "next_steps")
                                   && InWorkspace(desk, ws, t) && answer.Some?
                                   && Within(rows, ws, checked - 60_000_000) < limit)
            && (spec.Success? ==> spec.value == rows + [Suggestion(ws, written)])
  {
    RecentIsWindow(rows, ws, checked);
  }

  /** A call on its own is a check followed by a commit or by a failure. */
  lemma CallIsTwoSteps(desk: Desk, limit: int, rows: seq<Suggestion>, ws: WorkspaceId, t: TicketId, kind: string,
                       checked: int, answer: Option<string>, written: int)
    requires kind in ALLOWED_KINDS && InWorkspace(desk, ws, t) && checked <= written
    ensures var w := World(rows, map[]);
            var check := Checks(0, ws, checked);
            var finish := if answer.Some? then Commits(0, written, written) else Drops(0, written);
            match AfterSuggest(desk, limit, rows, ws, t, kind, checked, answer, written)
            case Success(s) =>
              Legal(limit, 1, w, checked, [check, finish])
              && Run(limit, 1, w, checked, [check, finish]) == World(s, map[])
            case Failure(_) =>
              if Recent(rows, ws, checked) >= limit then Next(limit, 1, w, check) == w
              else Legal(limit, 1, w, checked, [check, finish]) && Run(limit, 1, w, checked, [check, finish]) == w
  {
    var w := World(rows, map[]);
    var check := Checks(0, ws, checked);
    var finish := if answer.Some? then Commits(0, written, written) else Drops(0, written);
    if Recent(rows, ws, checked) < limit {
      var v := Next(limit, 1, w, check);
      assert v.open - {0} == map[];
      assert [check, finish][1..] == [finish] && [finish][1..] == [];
      var u := Next(limit, 1, v, finish);
      assert Legal(limit, 1, v, checked, [finish]) && Run(limit, 1, v, checked, [finish]) == u;
    }
  }

  // ---- the bound is exact ------------------------------------------------------------------------

  // m calls of one worker, then all workers check, then all of them commit, within one instant.
  function Calls(m: nat, ws: WorkspaceId): seq<Event> {
    if m == 0 then [] else [Checks(0, ws, 0), Commits(0, 0, 0)] + Calls(m - 1, ws)
  }

  function Rush(k: nat, n: nat, ws: WorkspaceId): seq<Event>
    requires k <= n
    decreases n - k
  {
    if k == n then [] else [Checks(k, ws, 0)] + Rush(k + 1, n, ws)
  }

  function Finish(k: nat, n: nat): seq<Event>
    requires k <= n
    decreases n - k
  {
    if k == n then [] else [Commits(k, 0, 0)] + Finish(k + 1, n)
  }

  // All rows are of this workspace, at instant 0.
  predicate Stored(rows: seq<Suggestion>, m: nat, ws: WorkspaceId) {
    |rows| == m && forall i :: 0 <= i < m ==> rows[i] == Suggestion(ws, 0)
  }

  lemma {:induction false} StoredCount(rows: seq<Suggestion>, m: nat, ws: WorkspaceId)
    requires Stored(rows, m, ws)
    ensures Recent(rows, ws, 0) == m && Within(rows, ws, 0) == m
  {
    if m > 0 {
      StoredCount(rows[..m - 1], m - 1, ws);
    }
  }

  lemma {:induction false} CallsPass(limit: int, n: nat, w: World, seen: nat, m: nat, ws: WorkspaceId)
    requires n > 0 && seen + m < limit && w.open == map[] && Stored(w.rows, seen, ws)
    ensures Legal(limit, n, w, 0, Calls(m, ws))
    ensures var v := Run(limit, n, w, 0, Calls(m, ws)); v.open == map[] && Stored(v.rows, seen + m, ws)
    decreases m
  {
    if m > 0 {
      var es := Calls(m, ws);
      StoredCount(w.rows, seen, ws);
      var checked := Next(limit, n, w, es[0]);
      var committed := Next(limit, n, checked, es[1]);
      assert es[1..] == [Commits(0, 0, 0)] + Calls(m - 1, ws) && es[1..][1..] == Calls(m - 1, ws);
      assert committed.open == map[];
      CallsPass(limit, n, committed, seen + 1, m - 1, ws);
    }
  }

  lemma {:induction false} RushPasses(limit: int, n: nat, w: World, seen: nat, k: nat, ws: WorkspaceId)
    requires k <= n && seen < limit && Stored(w.rows, seen, ws)
    requires forall i :: i in w.open <==> 0 <= i < k
    requires forall i :: i in w.open ==> w.open[i] == Call(ws, 0)
    ensures Legal(limit, n, w, 0, Rush(k, n, ws))
    ensures var v := Run(limit, n, w, 0, Rush(k, n, ws));
            v.rows == w.rows && forall i :: 0 <= i < n ==> i in v.open && v.open[i] == Call(ws, 0)
    decreases n - k
  {
    if k < n {
      StoredCount(w.rows, seen, ws);
      RushPasses(limit, n, Next(limit, n, w, Rush(k, n, ws)[0]), seen, k + 1, ws);
    }
  }

  lemma {:induction false} FinishPasses(limit: int, n: nat, w: World, seen: nat, k: nat, ws: WorkspaceId)
    requires k <= n && Stored(w.rows, seen, ws)
    requires forall i :: k <= i < n ==> i in w.open && w.open[i] == Call(ws, 0)
    ensures Legal(limit, n, w, 0, Finish(k, n))
    ensures Stored(Run(limit, n, w, 0, Finish(k, n)).rows, seen + n - k, ws)
    decreases n - k
  {
    if k < n {
      FinishPasses(limit, n, Next(limit, n, w, Finish(k, n)[0]), seen + 1, k + 1, ws);
    }
  }

  predicate AtZero(es: seq<Event>) {
    forall i :: 0 <= i < |es| ==> es[i].at == 0
  }

  lemma {:induction false} CallsAtZero(m: nat, ws: WorkspaceId)
    ensures AtZero(Calls(m, ws))
  {
    if m > 0 {
      CallsAtZero(m - 1, ws);
    }
  }

  lemma {:induction false} RushAtZero(k: nat, n: nat, ws: WorkspaceId)
    requires k <= n
    ensures AtZero(Rush(k, n, ws))
    decreases n - k
  {
    if k < n {
      RushAtZero(k + 1, n, ws);
    }
  }

  lemma {:induction false} RunConcat(limit: int, n: nat, w: World, a: seq<Event>, b: seq<Event>)
    requires AtZero(a) && Legal(limit, n, w, 0, a) && Legal(limit, n, Run(limit, n, w, 0, a), 0, b)
    ensures Legal(limit, n, w, 0, a + b) && Run(limit, n, w, 0, a + b) == Run(limit, n, Run(limit, n, w, 0, a), 0, b)
    decreases |a|
  {
    if a == [] {
      assert a + b == b;
    } else {
      assert (a + b)[0] == a[0] && (a + b)[1..] == a[1..] + b;
      RunConcat(limit, n, Next(limit, n, w, a[0]), a[1..], b);
    }
  }

  /** The bound cannot be lowered, so with two workers or more the configured number can be exceeded. */
  lemma BoundIsReached(limit: int, n: nat, ws: WorkspaceId) returns (es: seq<Event>)
    requires limit > 0 && n > 0
    ensures Legal(limit, n, NOTHING, 0, es) && Within(Run(limit, n, NOTHING, 0, es).rows, ws, 0) == limit - 1 + n
  {
    hide Legal, Run;
    var calls, rush, finish := Calls(limit - 1, ws), Rush(0, n, ws), Finish(0, n);
    CallsPass(limit, n, NOTHING, 0, limit - 1, ws);
    var called := Run(limit, n, NOTHING, 0, calls);
    RushPasses(limit, n, called, limit - 1, 0, ws);
    var rushed := Run(limit, n, called, 0, rush);
    FinishPasses(limit, n, rushed, limit - 1, 0, ws);
    CallsAtZero(limit - 1, ws);
    RushAtZero(0, n, ws);
    RunConcat(limit, n, called, rush, finish);
    RunConcat(limit, n, NOTHING, calls, rush + finish);
    es := calls + (rush + finish);
    StoredCount(Run(limit, n, NOTHING, 0, es).rows, limit - 1 + n, ws);
  }
}
